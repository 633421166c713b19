/** Which node the traffic really uses: the walk from the default outbound through the groups' current choices, on any
    graph of outbounds, cyclic ones too. */
module ProxyChain {
  import opened Basics

  datatype Kind = Direct | Block | DNS | Other

  /** An outbound; `now` is a group's current choice. */
  datatype Outbound = Outbound(tag: string, kind: Kind, now: Option<string>)

  /** The outbound manager: outbounds by tag. */
  type Registry = map<string, Outbound>

  ghost predicate Keyed(reg: Registry) { forall tag :: tag in reg ==> reg[tag].tag == tag }

  ghost predicate Known(reg: Registry, out: Option<Outbound>) {
    out.Some? ==> out.value.tag in reg && reg[out.value.tag] == out.value
  }

  const MAX_PROXY_DEPTH: nat := 16

  predicate IsGroup(o: Outbound) { o.kind == Other && o.now.Some? }

  predicate IsLeaf(o: Outbound) { o.kind == Other && o.now.None? }

  /** One step from a group; None where the walk ends without a node. */
  function Next(reg: Registry, o: Outbound): Option<Outbound>
    requires IsGroup(o)
  {
    var next := o.now.value;
    if next == "" || next == o.tag || next !in reg then None else Some(reg[next])
  }

  /** The n-th outbound of the unbounded walk. */
  function Nth(reg: Registry, out: Option<Outbound>, n: nat): Option<Outbound> {
    if n == 0 then out
    else
      var before := Nth(reg, out, n - 1);
      if before.Some? && IsGroup(before.value) then Next(reg, before.value) else None
  }

  /** The unbounded walk ends at node v, after n steps. */
  predicate EndsAt(reg: Registry, out: Option<Outbound>, n: nat, v: Outbound) {
    Nth(reg, out, n) == Some(v) && IsLeaf(v)
  }

  lemma {:induction false} NthKnown(reg: Registry, out: Option<Outbound>, n: nat)
    requires Keyed(reg) && Known(reg, out)
    ensures Known(reg, Nth(reg, out, n))
  {
    if n > 0 { NthKnown(reg, out, n - 1); }
  }

  /** Before the end of a walk there are only groups. */
  lemma {:induction false} GroupsBefore(reg: Registry, out: Option<Outbound>, m: nat, n: nat)
    requires m < n && Nth(reg, out, n).Some?
    ensures Nth(reg, out, m).Some? && IsGroup(Nth(reg, out, m).value)
    decreases n
  {
    if m < n - 1 { GroupsBefore(reg, out, m, n - 1); }
  }

  /** A walk that comes back to an outbound goes on for ever. */
  lemma {:induction false} CycleNeverEnds(reg: Registry, out: Option<Outbound>, i: nat, j: nat, n: nat)
    requires i < j && Nth(reg, out, j).Some? && Nth(reg, out, i) == Nth(reg, out, j)
    ensures Nth(reg, out, n).Some? && IsGroup(Nth(reg, out, n).value)
    decreases n
  {
    if n < j {
      GroupsBefore(reg, out, n, j);
    } else {
      Periodic(reg, out, i, j, n);
      CycleNeverEnds(reg, out, i, j, n - (j - i));
    }
  }

  lemma {:induction false} Periodic(reg: Registry, out: Option<Outbound>, i: nat, j: nat, n: nat)
    requires i < j <= n && Nth(reg, out, i) == Nth(reg, out, j)
    ensures Nth(reg, out, n) == Nth(reg, out, n - (j - i))
    decreases n
  {
    if n > j { Periodic(reg, out, i, j, n - 1); }
  }

  /** A walk ends at one place only. */
  lemma EndIsUnique(reg: Registry, out: Option<Outbound>, m: nat, v: Outbound, n: nat, w: Outbound)
    requires EndsAt(reg, out, m, v) && EndsAt(reg, out, n, w)
    ensures m == n && v == w
  {
    if m < n { GroupsBefore(reg, out, m, n); }
    if n < m { GroupsBefore(reg, out, n, m); }
  }

  /** A path of outbounds: each but the last is a group whose choice, another outbound, is the next. */
  ghost predicate Path(reg: Registry, path: seq<Outbound>) {
    path != [] && forall i :: 0 <= i < |path| - 1 ==>
      path[i].kind == Other && path[i].now.Some?
      && var next := path[i].now.value;
         next != "" && next != path[i].tag && next in reg && path[i + 1] == reg[next]
  }

  lemma {:induction false} NthPath(reg: Registry, first: Outbound, n: nat) returns (path: seq<Outbound>)
    requires Nth(reg, Some(first), n).Some?
    ensures |path| == n + 1 && Path(reg, path) && path[0] == first && Nth(reg, Some(first), n) == Some(path[n])
  {
    if n == 0 {
      path := [first];
    } else {
      path := NthPath(reg, first, n - 1);
      path := path + [Nth(reg, Some(first), n).value];
    }
  }

  lemma {:induction false} PathNth(reg: Registry, path: seq<Outbound>, n: nat)
    requires Path(reg, path) && n < |path|
    ensures Nth(reg, Some(path[0]), n) == Some(path[n])
  {
    if n > 0 { PathNth(reg, path, n - 1); }
  }

  /** The walk ends at v after n steps exactly if a path of groups leads there and v is a proxy that is no group. */
  lemma EndsByPath(reg: Registry, first: Outbound, n: nat, v: Outbound)
    ensures EndsAt(reg, Some(first), n, v) <==>
            && v.kind == Other && v.now == None
            && exists path :: |path| == n + 1 && Path(reg, path) && path[0] == first && path[n] == v
  {
    if EndsAt(reg, Some(first), n, v) {
      var path := NthPath(reg, first, n);
    }
    forall path | |path| == n + 1 && Path(reg, path) && path[0] == first && path[n] == v
      ensures Nth(reg, Some(first), n) == Some(v)
    {
      PathNth(reg, path, n);
    }
  }

  /** The first n outbounds of the walk are groups, and `seen` are their tags. */
  ghost predicate Passed(reg: Registry, out: Option<Outbound>, n: nat, seen: set<string>) {
    && (forall m :: 0 <= m < n ==>
          Nth(reg, out, m).Some? && IsGroup(Nth(reg, out, m).value) && Nth(reg, out, m).value.tag in seen)
    && (forall tag :: tag in seen ==>
          exists m :: 0 <= m < n && Nth(reg, out, m).Some? && Nth(reg, out, m).value.tag == tag)
  }

  lemma PassOn(reg: Registry, out: Option<Outbound>, n: nat, seen: set<string>, o: Outbound)
    requires Passed(reg, out, n, seen) && Nth(reg, out, n) == Some(o) && IsGroup(o)
    ensures Passed(reg, out, n + 1, seen + {o.tag}) && Nth(reg, out, n + 1) == Next(reg, o)
  {
    forall tag | tag in seen + {o.tag}
      ensures exists m :: 0 <= m < n + 1 && Nth(reg, out, m).Some? && Nth(reg, out, m).value.tag == tag
    {
      if tag == o.tag { assert Nth(reg, out, n).value.tag == tag; }
    }
  }

  /** A tag seen before means a cycle. */
  lemma SeenAgain(reg: Registry, out: Option<Outbound>, n: nat, seen: set<string>, o: Outbound)
    requires Keyed(reg) && Known(reg, out) && Passed(reg, out, n, seen) && Nth(reg, out, n) == Some(o) && o.tag in seen
    ensures forall k: nat, v :: !EndsAt(reg, out, k, v)
  {
    var m :| 0 <= m < n && Nth(reg, out, m).Some? && Nth(reg, out, m).value.tag == o.tag;
    NthKnown(reg, out, m);
    NthKnown(reg, out, n);
    CyclesHaveNoNode(reg, out, m, n);
  }

  /** currentProxyNode: the node the unbounded walk ends at, if it gets there within 15 steps; otherwise nil. */
  method CurrentProxyNode(reg: Registry, first: Option<Outbound>) returns (r: Option<Outbound>)
    requires Keyed(reg) && Known(reg, first)
    ensures r.Some? ==> exists n :: 0 <= n < MAX_PROXY_DEPTH && EndsAt(reg, first, n, r.value)
    ensures r.None? ==> forall n, v :: 0 <= n < MAX_PROXY_DEPTH ==> !EndsAt(reg, first, n, v)
  {
    var out := first;
    var seen: set<string> := {};
    assert out == Nth(reg, first, 0);
    hide Nth;
    for depth := 0 to MAX_PROXY_DEPTH
      invariant out == Nth(reg, first, depth) && Passed(reg, first, depth, seen)
    {
      if out.None? {
        NothingLater(reg, first, depth);
        return None;
      }
      var o := out.value;
      if o.kind != Other {
        NothingLater(reg, first, depth);
        return None;
      }
      if o.now.None? {
        assert EndsAt(reg, first, depth, o);
        return out;
      }
      if o.tag in seen {
        SeenAgain(reg, first, depth, seen, o);
        return None;
      }
      PassOn(reg, first, depth, seen, o);
      seen := seen + {o.tag};
      var next := o.now.value;
      if next == "" || next == o.tag || next !in reg {
        NothingLater(reg, first, depth + 1);
        return None;
      }
      out := Some(reg[next]);
    }
    return None;
  }

  /** Where the walk has no group at n and no node before or at n, it ends nowhere. */
  lemma NothingLater(reg: Registry, out: Option<Outbound>, n: nat)
    requires Nth(reg, out, n).None? || Nth(reg, out, n).value.kind != Other
    requires forall m :: 0 <= m < n ==> Nth(reg, out, m).Some? && IsGroup(Nth(reg, out, m).value)
    ensures forall k, v :: 0 <= k ==> !EndsAt(reg, out, k, v)
  {
    forall k: nat, v | EndsAt(reg, out, k, v) ensures false {
      if k > n { GroupsBefore(reg, out, n, k); }
    }
  }

  /** The walk on a cycle ends nowhere, so nil is right for it. */
  lemma CyclesHaveNoNode(reg: Registry, out: Option<Outbound>, i: nat, j: nat)
    requires i < j && Nth(reg, out, j).Some? && Nth(reg, out, i) == Nth(reg, out, j)
    ensures forall n: nat, v :: !EndsAt(reg, out, n, v)
  {
    forall n: nat, v ensures !EndsAt(reg, out, n, v) { CycleNeverEnds(reg, out, i, j, n); }
  }

  /** What the bounded walk returns is what the unbounded one does, unless that ends beyond 15 steps. */
  lemma AgreesUnlessLate(reg: Registry, out: Option<Outbound>, r: Option<Outbound>)
    requires r.Some? ==> exists n :: 0 <= n < MAX_PROXY_DEPTH && EndsAt(reg, out, n, r.value)
    requires r.None? ==> forall n, v :: 0 <= n < MAX_PROXY_DEPTH ==> !EndsAt(reg, out, n, v)
    ensures (forall v :: r == Some(v) <==> exists n: nat :: EndsAt(reg, out, n, v)) <==>
            !exists n: nat, v :: n >= MAX_PROXY_DEPTH && EndsAt(reg, out, n, v)
  {
    forall n: nat, v | EndsAt(reg, out, n, v) && (n >= MAX_PROXY_DEPTH || r != Some(v))
      ensures r.None? && n >= MAX_PROXY_DEPTH
    {
      if r.Some? {
        var m :| 0 <= m < MAX_PROXY_DEPTH && EndsAt(reg, out, m, r.value);
        EndIsUnique(reg, out, m, r.value, n, v);
      }
    }
  }

  /** A chain of at most 16 outbounds is short enough. */
  lemma ShortChains(reg: Registry, out: Option<Outbound>)
    requires Nth(reg, out, MAX_PROXY_DEPTH).None?
    ensures !exists n: nat, v :: n >= MAX_PROXY_DEPTH && EndsAt(reg, out, n, v)
  {
    forall n: nat, v | EndsAt(reg, out, n, v) ensures n < MAX_PROXY_DEPTH {
      if n > MAX_PROXY_DEPTH { GroupsBefore(reg, out, MAX_PROXY_DEPTH, n); }
    }
  }

  /** The walk comes back to an outbound. */
  ghost predicate Returns(reg: Registry, out: Option<Outbound>) {
    exists i: nat, j: nat :: i < j && Nth(reg, out, j).Some? && Nth(reg, out, i) == Nth(reg, out, j)
  }

  /** The walk stops at n without a node: there is no proxy here, or no way on. */
  predicate DeadEnd(reg: Registry, out: Option<Outbound>, n: nat) {
    Nth(reg, out, n).Some? &&
    (var o := Nth(reg, out, n).value;
     !IsLeaf(o) && (IsGroup(o) ==> Next(reg, o).None?))
  }

  lemma DeadEndsHaveNoNode(reg: Registry, out: Option<Outbound>, n: nat)
    requires DeadEnd(reg, out, n)
    ensures forall k: nat, v :: !EndsAt(reg, out, k, v)
  {
    forall k: nat, v | EndsAt(reg, out, k, v) ensures false {
      if k < n { GroupsBefore(reg, out, k, n); }
      if k > n { GroupsBefore(reg, out, n, k); }
      if k > n + 1 { GroupsBefore(reg, out, n + 1, k); }
    }
  }

  /** The tags of the first n + 1 outbounds. */
  ghost function Visited(reg: Registry, out: Option<Outbound>, n: nat): set<string>
    requires Nth(reg, out, n).Some?
  {
    (if n == 0 then {} else Visited(reg, out, n - 1)) + {Nth(reg, out, n).value.tag}
  }

  lemma {:induction false} VisitedAt(reg: Registry, out: Option<Outbound>, n: nat, tag: string) returns (i: nat)
    requires Keyed(reg) && Known(reg, out) && Nth(reg, out, n).Some? && tag in Visited(reg, out, n)
    ensures i <= n && tag in reg && Nth(reg, out, i) == Some(reg[tag])
  {
    NthKnown(reg, out, n);
    if tag == Nth(reg, out, n).value.tag { i := n; } else { i := VisitedAt(reg, out, n - 1, tag); }
  }

  /** A walk that does not return meets a new outbound every time. */
  lemma NewlyVisited(reg: Registry, out: Option<Outbound>, n: nat)
    requires Keyed(reg) && Known(reg, out) && n > 0 && Nth(reg, out, n).Some? && !Returns(reg, out)
    ensures Nth(reg, out, n - 1).Some? && Nth(reg, out, n).value.tag !in Visited(reg, out, n - 1)
    ensures Nth(reg, out, n).value.tag in reg.Keys
  {
    NthKnown(reg, out, n);
    hide Visited;
    if Nth(reg, out, n).value.tag in Visited(reg, out, n - 1) {
      var i := VisitedAt(reg, out, n - 1, Nth(reg, out, n).value.tag);
    }
  }

  lemma {:induction false} VisitedCount(reg: Registry, out: Option<Outbound>, n: nat)
    requires Keyed(reg) && Known(reg, out) && Nth(reg, out, n).Some? && !Returns(reg, out)
    ensures Visited(reg, out, n) <= reg.Keys && |Visited(reg, out, n)| == n + 1
  {
    NthKnown(reg, out, n);
    hide Nth, Returns;
    if n > 0 {
      NewlyVisited(reg, out, n);
      VisitedCount(reg, out, n - 1);
    }
  }

  lemma SubsetSize(small: set<string>, large: set<string>)
    requires small <= large
    ensures |small| <= |large|
  {
    assert large == small + (large - small);
  }

  /** A walk that neither returns nor stops ends at a node. */
  lemma {:induction false} EndsSomewhere(reg: Registry, out: Option<Outbound>, n: nat) returns (k: nat)
    requires Keyed(reg) && Known(reg, out) && Nth(reg, out, n).Some?
    requires !Returns(reg, out) && forall d: nat :: !DeadEnd(reg, out, d)
    ensures k >= n && Nth(reg, out, k).Some? && EndsAt(reg, out, k, Nth(reg, out, k).value)
    decreases |reg.Keys| - n
  {
    VisitedCount(reg, out, n);
    SubsetSize(Visited(reg, out, n), reg.Keys);
    hide Visited, Returns;
    assert !DeadEnd(reg, out, n);
    var o := Nth(reg, out, n).value;
    if IsLeaf(o) {
      k := n;
    } else {
      assert Nth(reg, out, n + 1) == Next(reg, o);
      k := EndsSomewhere(reg, out, n + 1);
    }
  }

  /** The bound makes no difference if and only if the walk is over within 15 steps, comes back to an outbound, or stops
      without a node. */
  lemma BoundIsEnoughExactly(reg: Registry, out: Option<Outbound>, r: Option<Outbound>)
    requires Keyed(reg) && Known(reg, out)
    requires r.Some? ==> exists n :: 0 <= n < MAX_PROXY_DEPTH && EndsAt(reg, out, n, r.value)
    requires r.None? ==> forall n, v :: 0 <= n < MAX_PROXY_DEPTH ==> !EndsAt(reg, out, n, v)
    ensures (forall v :: r == Some(v) <==> exists n: nat :: EndsAt(reg, out, n, v)) <==>
            Nth(reg, out, MAX_PROXY_DEPTH).None? || Returns(reg, out) || exists n: nat :: DeadEnd(reg, out, n)
  {
    AgreesUnlessLate(reg, out, r);
    hide Nth, DeadEnd, EndsAt;
    if Nth(reg, out, MAX_PROXY_DEPTH).None? {
      ShortChains(reg, out);
    } else if Returns(reg, out) {
      var i: nat, j: nat :| i < j && Nth(reg, out, j).Some? && Nth(reg, out, i) == Nth(reg, out, j);
      CyclesHaveNoNode(reg, out, i, j);
    } else if n: nat :| DeadEnd(reg, out, n) {
      DeadEndsHaveNoNode(reg, out, n);
    } else {
      var k := EndsSomewhere(reg, out, MAX_PROXY_DEPTH);
    }
  }

  // ---- a chain that is too long ----

  /** Sixteen groups, each with the next as its choice, and a node: their tags are one x to seventeen. */
  function Link(tag: string): Outbound { Outbound(tag, Other, if |tag| <= 16 then Some(tag + "x") else None) }

  function Xs(n: nat): (s: string)
    ensures |s| == n && forall i :: 0 <= i < n ==> s[i] == 'x'
  {
    seq(n, i => 'x')
  }

  ghost const CHAIN: Registry := map tag | tag in (set n | 1 <= n <= 17 :: Xs(n)) :: Link(tag)

  lemma {:induction false} ChainNth(n: nat)
    requires n <= 16
    ensures Xs(n + 1) in CHAIN && Nth(CHAIN, Some(Link(Xs(1))), n) == Some(Link(Xs(n + 1)))
  {
    if n > 0 {
      ChainNth(n - 1);
      assert Xs(n) + "x" == Xs(n + 1);
      assert Xs(n + 1) in (set k | 1 <= k <= 17 :: Xs(k));
    }
  }

  /** The walk from the first group ends at the node, after 16 steps: the bound cuts it off, and there is no result. */
  lemma SeventeenIsTooLong(r: Option<Outbound>)
    requires r.Some? ==> exists n :: 0 <= n < MAX_PROXY_DEPTH && EndsAt(CHAIN, Some(Link(Xs(1))), n, r.value)
    ensures EndsAt(CHAIN, Some(Link(Xs(1))), 16, Link(Xs(17))) && r == None
    ensures Keyed(CHAIN) && Known(CHAIN, Some(Link(Xs(1))))
  {
    ChainNth(16);
    ChainNth(0);
    if r.Some? {
      var n :| 0 <= n < MAX_PROXY_DEPTH && EndsAt(CHAIN, Some(Link(Xs(1))), n, r.value);
      EndIsUnique(CHAIN, Some(Link(Xs(1))), n, r.value, 16, Link(Xs(17)));
    }
  }
}
