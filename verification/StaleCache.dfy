/** How the short cut of NodeChange fails in the running system: from every settled state in which a
    service has two hosts or more, replacing any host but the greatest leaves the client, with
    nothing pending, believing in the host that is gone. */
module StaleCache {
  import opened GoStrings
  import opened ServiceUri
  import opened HostHistory
  import opened ClientCache
  import opened ZkTree
  import opened Discovery
  import opened DiscoveryTheorems

  /** Everything the client was told is handled and its cache of p is exact. */
  ghost predicate Settled(s: State, p: string) {
    && Inv(s) && p in s.subs && s.pc.Idle? && s.zk.queue == []
    && Rooted(p) && p in s.zk.tree && s.zk.tree[p].owner.None? && p in s.zk.childWatches
    && CachedHosts(s.cache, UriOf(p)).Some?
    && Elements(CachedHosts(s.cache, UriOf(p)).value) == Children(s.zk.tree, p)
  }

  function Shown(s: State, p: string): seq<string>
    requires Rooted(p) && CachedHosts(s.cache, UriOf(p)).Some?
  {
    CachedHosts(s.cache, UriOf(p)).value
  }

  /** Host a is to go and host b, not known so far, is to come in its place below the greatest. */
  ghost predicate Replaceable(s: State, p: string, a: string, b: string, node: Node)
    requires Settled(s, p)
  {
    var hosts := Shown(s, p);
    && Ascending(hosts) && Distinct(hosts) && hosts != [] && a in hosts && a != Last(hosts)
    && Segment(b) && NoSpace(b) && b !in hosts && StrLe(b, Last(hosts))
    && Join(p, a) in s.zk.tree && s.zk.tree[Join(p, a)].owner.Some?
    && Join(p, a) !in s.subs && Join(p, b) !in s.zk.nodeWatches
    && node.version == 0 && Truthful(Join(p, b), node)
  }

  lemma NewHostAppears(s: State, p: string, a: string, b: string, node: Node) returns (s1: State)
    requires Settled(s, p) && Replaceable(s, p, a, b, node)
    ensures Enabled(s, NodeAppears(Join(p, b), node)) && s1 == Next(s, NodeAppears(Join(p, b), node))
    ensures s1 == s.(zk := Zk(s.zk.tree[Join(p, b) := node], s.zk.childWatches - {p}, s.zk.nodeWatches,
                              [Event(ChildrenChanged, p)]))
  {
    JoinParts(p, b);
    ChildrenAreJoined(s.zk.tree, p, b);
    s1 := Next(s, NodeAppears(Join(p, b), node));
  }

  lemma OldHostGoes(s: State, p: string, a: string, b: string, node: Node, s1: State) returns (s2: State)
    requires Settled(s, p) && Replaceable(s, p, a, b, node)
    requires s1 == s.(zk := Zk(s.zk.tree[Join(p, b) := node], s.zk.childWatches - {p}, s.zk.nodeWatches,
                               [Event(ChildrenChanged, p)]))
    ensures Enabled(s1, NodeGoes(Join(p, a))) && s2 == Next(s1, NodeGoes(Join(p, a)))
    ensures s2 == s1.(zk := s2.zk) && s2.zk.tree == s1.zk.tree - {Join(p, a)}
    ensures s2.zk.queue == [Event(ChildrenChanged, p)]
         || s2.zk.queue == [Event(ChildrenChanged, p), Event(NodeDeleted, Join(p, a))]
  {
    var t, pa := s.zk.tree, Join(p, a);
    assert a in Elements(Shown(s, p));
    ChildrenAreJoined(t, p, a);
    JoinParts(p, a);
    JoinParts(p, b);
    EphemeralsAreLeaves(t, pa);
    ChildrenAreJoined(t, p, b);
    ChildrenAfterCreate(t, Join(p, b), node, pa);
    assert pa != Join(p, b);
    assert s1.zk.tree[pa].version == 0;
    s2 := Next(s1, NodeGoes(pa));
  }

  lemma ReplacedChildren(s: State, p: string, a: string, b: string, node: Node)
    requires Settled(s, p) && Replaceable(s, p, a, b, node)
    ensures Children(s.zk.tree[Join(p, b) := node] - {Join(p, a)}, p) == Children(s.zk.tree, p) - {a} + {b}
  {
    var t := s.zk.tree;
    var t1 := t[Join(p, b) := node];
    assert a in Elements(Shown(s, p));
    ChildrenAreJoined(t, p, a);
    ChildrenAreJoined(t, p, b);
    JoinParts(p, a);
    JoinParts(p, b);
    ChildrenAfterCreate(t, Join(p, b), node, p);
    forall q | q in ChildPaths(t1, p) ensures q == Join(p, Base(q)) {
      if q in t { assert Nameable(q); }
    }
    ChildrenWithout(t1, p, a);
  }

  lemma ChildrenWithout(t: Tree, p: string, a: string)
    requires Parent(Join(p, a)) == p && Base(Join(p, a)) == a && Join(p, a) != "/"
    requires forall q :: q in ChildPaths(t, p) ==> q == Join(p, Base(q))
    ensures Children(t - {Join(p, a)}, p) == Children(t, p) - {a}
  {
    assert ChildPaths(t - {Join(p, a)}, p) == ChildPaths(t, p) - {Join(p, a)};
  }

  /** The listener takes a child event of p, lists l and finds nothing changed. */
  lemma ListenerSeesNothing(s: State, p: string, l: seq<string>) returns (steps: seq<Step>, t: State)
    requires s.pc.Idle? && s.zk.queue != [] && s.zk.queue[0] == Event(ChildrenChanged, p)
    requires p in s.watchers && Listing(s.zk, p, l) && Rooted(p)
    requires !NeedsChange(s.cache, UriOf(p), Sort(l))
    ensures Leads(s, steps, t)
    ensures t.pc.Idle? && t.cache == s.cache && t.zk.tree == s.zk.tree && t.subs == s.subs
    ensures t.zk.queue == s.zk.queue[1..]
  {
    ContainsSelf(p);
    assert Watched(s, p);
    RootedMatches(p);
    var s1 := Next(s, Dequeue);
    var s2 := Next(s1, ListChildren(l));
    t := Next(s2, CompareHosts);
    steps := LeadsThrough(s2, CompareHosts, [], t);
    steps := LeadsThrough(s1, ListChildren(l), steps, t);
    steps := LeadsThrough(s, Dequeue, steps, t);
  }

  /** With a replaced by b below the greatest, the greatest is still the greatest. */
  lemma GreatestStays(hosts: Hosts, after: Hosts, b: string)
    requires hosts != [] && Ascending(hosts) && Ascending(after) && after != []
    requires Last(hosts) in after && StrLe(b, Last(hosts))
    requires forall x :: x in after ==> x in hosts || x == b
    ensures Last(after) == Last(hosts)
  {
    var m := Last(hosts);
    var i :| 0 <= i < |after| && after[i] == m;
    StrLeReflexive(m);
    assert StrLe(m, Last(after));
    if Last(after) != b {
      assert Last(after) in after;
      var j :| 0 <= j < |hosts| && hosts[j] == Last(after);
      assert StrLe(hosts[j], m);
    }
    StrLeAntisymmetric(m, Last(after));
  }

  lemma ReplacedSize(x: set<string>, a: string, b: string)
    requires a in x && b !in x
    ensures |x - {a} + {b}| == |x|
  {
  }

  /** Replacing an element below the greatest changes neither the length nor the last element. */
  lemma ReplacementLooksUnchanged(hosts: Hosts, l: seq<string>, a: string, b: string)
    requires Ascending(hosts) && Distinct(hosts) && hosts != [] && a in hosts && a != Last(hosts)
    requires b !in hosts && StrLe(b, Last(hosts))
    requires Distinct(l) && Elements(l) == Elements(hosts) - {a} + {b}
    ensures LooksUnchanged(hosts, Sort(l))
  {
    var after := Sort(l);
    SortCorrect(l);
    SortKeepsElements(l);
    DistinctCardinality(hosts);
    DistinctCardinality(l);
    ReplacedSize(Elements(hosts), a, b);
    assert |after| == |hosts|;
    assert Last(hosts) in Elements(after);
    forall x | x in after ensures x in hosts || x == b { assert x in Elements(after); }
    GreatestStays(hosts, after, b);
  }

  /** Nothing about p is pending, its children have changed, and the cache has not. */
  ghost predicate Stale(s: State, t: State, p: string, a: string, b: string) {
    && p in t.subs && Quiet(t, p) && t.cache == s.cache
    && Children(t.zk.tree, p) == Children(s.zk.tree, p) - {a} + {b}
  }

  /** What the two changes leave to the listener. */
  ghost predicate Replaced(s: State, s2: State, p: string, a: string, b: string) {
    && s2.pc.Idle? && s2.cache == s.cache && s2.subs == s.subs && s2.watchers == s.watchers && p in s2.zk.tree
    && Children(s2.zk.tree, p) == Children(s.zk.tree, p) - {a} + {b}
    && s2.zk.queue != [] && s2.zk.queue[0] == Event(ChildrenChanged, p)
    && (forall e :: e in s2.zk.queue[1..] ==> e.path != p)
  }

  lemma ListenerStaysStale(s: State, p: string, a: string, b: string, node: Node, s2: State)
      returns (steps: seq<Step>, t: State)
    requires Settled(s, p) && Replaceable(s, p, a, b, node) && Replaced(s, s2, p, a, b)
    ensures Leads(s2, steps, t) && Stale(s, t, p, a, b)
  {
    var l := EverySetHasAListing(Children(s2.zk.tree, p));
    ReplacementLooksUnchanged(Shown(s, p), l, a, b);
    assert SubInv(s, p);
    steps, t := ListenerSeesNothing(s2, p, l);
  }

  lemma HostIsReplaced(s: State, p: string, a: string, b: string, node: Node, s1: State)
      returns (steps: seq<Step>, t: State)
    requires Settled(s, p) && Replaceable(s, p, a, b, node)
    requires s1 == s.(zk := Zk(s.zk.tree[Join(p, b) := node], s.zk.childWatches - {p}, s.zk.nodeWatches,
                               [Event(ChildrenChanged, p)]))
    ensures Leads(s1, steps, t) && Stale(s, t, p, a, b)
  {
    var s2 := OldHostGoes(s, p, a, b, node, s1);
    ReplacedChildren(s, p, a, b, node);
    assert Join(p, a) != p;
    steps, t := ListenerStaysStale(s, p, a, b, node, s2);
    steps := LeadsThrough(s1, NodeGoes(Join(p, a)), steps, t);
  }

  /** From every settled state, for every host of p but the greatest and every new host below the
      greatest: when the one is replaced by the other and the listener deals with it, the client ends
      with nothing pending about p and still has in its cache the host whose node is gone. */
  lemma ReplacedHostStaysCached(s: State, p: string, a: string, b: string, node: Node)
      returns (steps: seq<Step>, t: State)
    requires Settled(s, p) && Replaceable(s, p, a, b, node)
    ensures Leads(s, steps, t) && p in t.subs && Quiet(t, p)
    ensures Children(t.zk.tree, p) == Children(s.zk.tree, p) - {a} + {b}
    ensures t.cache == s.cache && a in Shown(t, p) && a !in Children(t.zk.tree, p)
  {
    var s1 := NewHostAppears(s, p, a, b, node);
    steps, t := HostIsReplaced(s, p, a, b, node, s1);
    steps := LeadsThrough(s, NodeAppears(Join(p, b), node), steps, t);
  }
}
