/** The two ways in which the client's cache goes wrong, as runs from the start of the system. */
module FailingRuns {
  import opened GoStrings
  import opened ServiceUri
  import opened HostHistory
  import opened ClientCache
  import opened ZkTree
  import opened Discovery
  import opened DiscoveryInvariants
  import opened DiscoveryTheorems
  import opened StaleCache
  import opened CacheKeys

  /** A client that starts and subscribes to a service: the state after its first step. */
  ghost predicate Subscribes(s: State, uri: string, hosts: seq<string>) {
    && Start(s) && Enabled(s, Subscribe(uri, hosts))
    && s.zk.tree[SubscriptionPath(uri)].owner.None?
  }

  /** The first subscription settles, with the hosts it was told and watches on their nodes. */
  lemma SubscriptionSettles(s: State, uri: string, hosts: seq<string>)
    requires Subscribes(s, uri, hosts)
    ensures var s1, p := Next(s, Subscribe(uri, hosts)), SubscriptionPath(uri);
      && Settled(s1, p) && Shown(s1, p) == Sort(hosts) && s1.zk.tree == s.zk.tree && s1.subs == {p}
      && (forall q :: q in s1.zk.nodeWatches <==> exists h :: h in Sort(hosts) && Read(s, p, h, q))
  {
    var s1, p := Next(s, Subscribe(uri, hosts)), SubscriptionPath(uri);
    StartHasInv(s);
    NextKeepsInv(s, Subscribe(uri, hosts));
    SubscribedHosts(s.zk.tree, uri, hosts);
    forall q ensures q in s1.zk.nodeWatches <==> exists h :: h in Sort(hosts) && Read(s, p, h, q) {
      if q in s1.zk.nodeWatches {
        var h :| h in Sort(hosts) && AddressPath(p, h) in s.zk.tree && q == AddressPath(p, h);
        assert Read(s, p, h, q);
      }
    }
  }

  /** q is the address node of host h of p, and it is there. */
  predicate Read(s: State, p: string, h: string, q: string) {
    q == AddressPath(p, h) && q in s.zk.tree
  }

  lemma FirstStep(s: State, step: Step)
    requires Start(s) && Enabled(s, step)
    ensures Run([s, Next(s, step)], [step])
  {
    var states := [s, Next(s, step)];
    assert StepAt(states, [step], 0);
  }

  lemma Joined(p: string, a: string, b: string)
    requires Rooted(p) && Segment(a) && Segment(b)
    ensures Join(p, a) == AddressPath(p, a) && Join(p, a) != p
    ensures Join(p, a) == Join(p, b) ==> a == b
  {
    AddressPathIs(p, a);
    JoinParts(p, a);
    JoinParts(p, b);
  }

  /** Host a is to be replaced by b in what a starting client was told. */
  ghost predicate Replacement(s: State, p: string, hosts: Hosts, a: string, b: string, node: Node) {
    && hosts != [] && a in hosts && a != Last(hosts)
    && Segment(a) && Segment(b) && NoSpace(b) && b !in hosts && StrLe(b, Last(hosts))
    && Join(p, a) in s.zk.tree && s.zk.tree[Join(p, a)].owner.Some?
    && node.version == 0 && Truthful(Join(p, b), node)
  }

  lemma SubscribedIsReplaceable(s: State, uri: string, listed: seq<string>, a: string, b: string, node: Node)
    requires Subscribes(s, uri, listed)
    requires Replacement(s, SubscriptionPath(uri), Sort(listed), a, b, node)
    ensures var s1, p := Next(s, Subscribe(uri, listed)), SubscriptionPath(uri);
      Settled(s1, p) && Replaceable(s1, p, a, b, node)
  {
    var s1, p, hosts := Next(s, Subscribe(uri, listed)), SubscriptionPath(uri), Sort(listed);
    SubscriptionSettles(s, uri, listed);
    SubscribedHosts(s.zk.tree, uri, listed);
    ListedHostsAreSegments(s.zk.tree, p, listed);
    Joined(p, a, b);
    Joined(p, b, a);
    if Join(p, b) in s1.zk.nodeWatches {
      var h :| h in hosts && Read(s, p, h, Join(p, b));
      Joined(p, h, b);
    }
  }

  /** The cache goes stale in a run from the start: for every tree, every service in it and every
      replacement of a host but the greatest by a new one below it, there is a run in which the client
      ends with nothing pending about the service and the host that is gone in its cache. */
  lemma StaleRun(s: State, uri: string, listed: seq<string>, a: string, b: string, node: Node)
      returns (states: seq<State>, steps: seq<Step>)
    requires Subscribes(s, uri, listed)
    requires Replacement(s, SubscriptionPath(uri), Sort(listed), a, b, node)
    ensures Run(states, steps) && states[0] == s
    ensures var t, p := states[|steps|], SubscriptionPath(uri);
      && p in t.subs && Quiet(t, p) && Rooted(p) && CachedHosts(t.cache, UriOf(p)).Some?
      && a in CachedHosts(t.cache, UriOf(p)).value && a !in Children(t.zk.tree, p)
  {
    var s1, p := Next(s, Subscribe(uri, listed)), SubscriptionPath(uri);
    SubscribedIsReplaceable(s, uri, listed, a, b, node);
    var more, t := ReplacedHostStaysCached(s1, p, a, b, node);
    FirstStep(s, Subscribe(uri, listed));
    states := LeadsWithinRuns([s, s1], [Subscribe(uri, listed)], more, t);
    steps := [Subscribe(uri, listed)] + more;
    assert states[0] == [s, s1][0];
  }

  /** A stray entry comes about in a run from the start: for every tree, every service in it and every
      host of it, there is a run in which the uri extended by the host gets an entry that nobody
      subscribed and below which nothing is. */
  lemma StrayRun(s: State, uri: string, listed: seq<string>, a: string)
      returns (states: seq<State>, steps: seq<Step>)
    requires Subscribes(s, uri, listed) && a in listed
    requires var pa := Join(SubscriptionPath(uri), a); pa in s.zk.tree ==> s.zk.tree[pa].owner.Some?
    ensures Run(states, steps) && states[0] == s
    ensures var t, pa := states[|steps|], Join(SubscriptionPath(uri), a);
      Rooted(pa) && UriOf(pa) in t.cache && pa !in t.subs && pa !in t.zk.tree && !NoStrayEntry(t)
  {
    var s1, p := Next(s, Subscribe(uri, listed)), SubscriptionPath(uri);
    SubscribedWasRead(s, uri, listed, a);
    var more, t := DeletedHostBecomesAnEntry(s1, p, a);
    FirstStep(s, Subscribe(uri, listed));
    states := LeadsWithinRuns([s, s1], [Subscribe(uri, listed)], more, t);
    steps := [Subscribe(uri, listed)] + more;
    assert states[0] == [s, s1][0];
    RootedMatches(Join(p, a));
  }

  lemma SubscribedWasRead(s: State, uri: string, listed: seq<string>, a: string)
    requires Subscribes(s, uri, listed) && a in listed
    requires var pa := Join(SubscriptionPath(uri), a); pa in s.zk.tree ==> s.zk.tree[pa].owner.Some?
    ensures var s1, p := Next(s, Subscribe(uri, listed)), SubscriptionPath(uri);
      Settled(s1, p) && WasRead(s1, p, a)
  {
    var s1, p := Next(s, Subscribe(uri, listed)), SubscriptionPath(uri);
    SubscriptionSettles(s, uri, listed);
    SortKeepsElements(listed);
    assert a in Elements(listed) && a in Elements(Sort(listed));
    ChildrenAreJoined(s.zk.tree, p, a);
    Joined(p, a, a);
    assert Read(s, p, a, Join(p, a));
  }
}
