/** Every step of the discovery system keeps the invariants. */
module DiscoveryInvariants {
  import opened Wrappers
  import opened GoStrings
  import opened ServiceMetas
  import opened ServiceUri
  import opened HostHistory
  import opened ClientCache
  import opened ZkTree
  import opened Discovery

  // ---------- what creation and deletion do to watches ----------

  /** Watches only get consumed, and every event a change adds comes from a consumed watch. */
  ghost predicate Fired(zk: Zk, zk': Zk) {
    && zk'.childWatches <= zk.childWatches && zk'.nodeWatches <= zk.nodeWatches
    && (forall e :: e in zk.queue ==> e in zk'.queue)
    && (forall e :: e in zk'.queue ==> e in zk.queue || e.path in zk.childWatches + zk.nodeWatches)
  }

  /** The child watch of p either stays armed over unchanged children or is turned into an event. */
  ghost predicate ChildWatchSafe(zk: Zk, zk': Zk, p: string) {
    && (p in zk'.childWatches ==> Children(zk'.tree, p) == Children(zk.tree, p))
    && (p in zk.childWatches ==> p in zk'.childWatches || Event(ChildrenChanged, p) in zk'.queue)
    && (Event(NodeDeleted, p) in zk'.queue ==> Event(NodeDeleted, p) in zk.queue)
  }

  lemma AppearFires(zk: Zk, path: string, node: Node)
    ensures Fired(zk, Appear(zk, path, node))
  {
  }

  lemma AppearIsSafe(zk: Zk, path: string, node: Node, p: string)
    requires path !in zk.tree && path != "/"
    ensures ChildWatchSafe(zk, Appear(zk, path, node), p)
  {
    ChildrenAfterCreate(zk.tree, path, node, p);
    var zk1 := FireNode(zk.(tree := zk.tree[path := node]), NodeCreated, path);
    if p in zk.childWatches && Parent(path) == p {
      assert Event(ChildrenChanged, p) in Appear(zk, path, node).queue;
    }
  }

  lemma DisappearFires(zk: Zk, path: string)
    ensures Fired(zk, Disappear(zk, path))
  {
  }

  lemma DisappearIsSafe(zk: Zk, path: string, p: string)
    requires p != path
    ensures ChildWatchSafe(zk, Disappear(zk, path), p)
  {
    if Parent(path) != p { ChildrenAfterDelete(zk.tree, path, p); }
    if p in zk.childWatches && Parent(path) == p {
      assert Event(ChildrenChanged, p) in Disappear(zk, path).queue;
    }
  }

  /** A change made by another session, for one subscribed path and for the whole state. */
  lemma OutsideChangeKeepsInv(s: State, zk': Zk)
    requires Inv(s) && TreeInv(zk'.tree) && Fired(s.zk, zk')
    requires forall p :: p in s.subs ==> p in zk'.tree && ChildWatchSafe(s.zk, zk', p)
    ensures Inv(s.(zk := zk'))
  {
    var s' := s.(zk := zk');
    forall p | p in s.subs ensures SubInv(s', p) && ArmedInv(s', p) && SeenInv(s', p) && CacheInv(s', p) {
      assert SubInv(s, p) && ArmedInv(s, p) && SeenInv(s, p) && CacheInv(s, p);
      assert ChildWatchSafe(s.zk, zk', p);
      assert History(s', p) == History(s, p);
    }
    assert PathsInv(s');
  }

  lemma NodeAppearsKeepsInv(s: State, step: Step)
    requires Inv(s) && Enabled(s, step) && step.NodeAppears?
    ensures Inv(Next(s, step))
  {
    CreateKeepsWellFormed(s.zk.tree, step.path, step.node);
    AppearFires(s.zk, step.path, step.node);
    assert step.path !in s.zk.tree;
    forall p | p in s.subs ensures p in s.zk.tree && ChildWatchSafe(s.zk, Appear(s.zk, step.path, step.node), p) {
      assert SubInv(s, p);
      AppearIsSafe(s.zk, step.path, step.node, p);
    }
    assert Appear(s.zk, step.path, step.node).tree == s.zk.tree[step.path := step.node];
    OutsideChangeKeepsInv(s, Appear(s.zk, step.path, step.node));
  }

  lemma DisappearKeepsTreeInv(zk: Zk, path: string)
    requires TreeInv(zk.tree) && Delete(zk.tree, path, 0).Ok?
    ensures Disappear(zk, path).tree == zk.tree - {path}
    ensures TreeInv(Disappear(zk, path).tree)
  {
    DeleteKeepsWellFormed(zk.tree, path, 0);
  }

  lemma NodeGoesKeepsInv(s: State, step: Step)
    requires Inv(s) && Enabled(s, step) && step.NodeGoes?
    ensures Inv(Next(s, step))
  {
    DisappearKeepsTreeInv(s.zk, step.path);
    DisappearFires(s.zk, step.path);
    var zk' := Disappear(s.zk, step.path);
    forall p | p in s.subs ensures p in zk'.tree && ChildWatchSafe(s.zk, zk', p) {
      assert SubInv(s, p);
      DisappearIsSafe(s.zk, step.path, p);
    }
    OutsideChangeKeepsInv(s, zk');
  }

  // ---------- names ----------

  /** Two watched paths with the same key are the same path. */
  lemma UriOfInjective(p: string, q: string)
    requires Rooted(p) && Rooted(q) && UriOf(p) == UriOf(q)
    ensures p == q
  {
    RootedMatches(p);
    RootedMatches(q);
  }

  lemma HostPath(p: string, host: string)
    requires Rooted(p) && Segment(host)
    ensures AddressPath(p, host) == Join(p, host)
    ensures Base(Join(p, host)) == host
    ensures NoSpace(Join(p, host)) ==> Rooted(Join(p, host))
  {
    AddressPathIs(p, host);
    assert p != "/" && p != "";
    JoinParts(p, host);
    assert Join(p, host)[..|V1_ROOT|] == p[..|V1_ROOT|];
  }

  lemma ReadIsHonest(t: Tree, p: string, host: string)
    requires TreeInv(t) && Rooted(p) && Segment(host)
    ensures Honest(host, ReadNode(t, AddressPath(p, host)))
  {
    HostPath(p, host);
  }

  lemma ListedHostsAreSegments(t: Tree, p: string, hosts: seq<string>)
    requires WellFormed(t) && Elements(hosts) == Children(t, p) && p != ""
    ensures forall i :: 0 <= i < |Sort(hosts)| ==> Segment(Sort(hosts)[i])
  {
    SortKeepsElements(hosts);
    forall i | 0 <= i < |Sort(hosts)| ensures Segment(Sort(hosts)[i]) {
      assert Sort(hosts)[i] in Elements(Sort(hosts));
      ChildrenAreJoined(t, p, Sort(hosts)[i]);
    }
  }

  // ---------- the client's own steps ----------

  lemma SubscribedHosts(t: Tree, uri: string, listed: seq<string>)
    requires TreeInv(t) && SubscriptionPath(uri) in t
    requires Distinct(listed) && Elements(listed) == Children(t, SubscriptionPath(uri))
    ensures var path, hosts := SubscriptionPath(uri), Sort(listed);
      && Rooted(path) && UriOf(path) == uri
      && Ascending(hosts) && Distinct(hosts) && Elements(hosts) == Children(t, path)
      && HostsOf(Pulled(uri, hosts, ReadNodes(t, path, hosts))) == hosts
      && forall h :: h in hosts && AddressPath(path, h) in t ==> Rooted(AddressPath(path, h))
  {
    var path, hosts := SubscriptionPath(uri), Sort(listed);
    SubscriptionPathIs(uri);
    ListedHostsAreSegments(t, path, listed);
    SortCorrect(listed);
    SortKeepsElements(listed);
    var replies := ReadNodes(t, path, hosts);
    forall i | 0 <= i < |hosts| ensures Honest(hosts[i], replies[i]) { ReadIsHonest(t, path, hosts[i]); }
    PulledHosts(uri, hosts, replies);
    forall h | h in hosts && AddressPath(path, h) in t ensures Rooted(AddressPath(path, h)) {
      HostPath(path, h);
    }
  }

  lemma SubscribedPath(s: State, step: Step)
    requires Inv(s) && Enabled(s, step) && step.Subscribe?
    ensures var s', p := Next(s, step), SubscriptionPath(step.uri);
      SubInv(s', p) && ArmedInv(s', p) && SeenInv(s', p) && CacheInv(s', p)
  {
    var s', path, hosts := Next(s, step), SubscriptionPath(step.uri), Sort(step.hosts);
    SubscribedHosts(s.zk.tree, step.uri, step.hosts);
    assert History(s', path) == [hosts];
    assert RunHosts([hosts]) == Some(hosts) by { assert [hosts][..0] == []; }
  }

  lemma SubscribeKeepsPaths(s: State, step: Step)
    requires Inv(s) && Enabled(s, step) && step.Subscribe?
    ensures PathsInv(Next(s, step))
  {
    var s', path, hosts := Next(s, step), SubscriptionPath(step.uri), Sort(step.hosts);
    SubscribedHosts(s.zk.tree, step.uri, step.hosts);
    forall q | q in s'.zk.nodeWatches ensures Rooted(q) {
      assert q in s.zk.nodeWatches || exists h ::
        h in hosts && AddressPath(path, h) in s.zk.tree && q == AddressPath(path, h);
    }
  }

  lemma SubscribeKeepsOther(s: State, step: Step, p: string)
    requires Inv(s) && Enabled(s, step) && step.Subscribe? && p in s.subs
    ensures var s' := Next(s, step); SubInv(s', p) && ArmedInv(s', p) && SeenInv(s', p) && CacheInv(s', p)
  {
    var s', path := Next(s, step), SubscriptionPath(step.uri);
    SubscribedHosts(s.zk.tree, step.uri, step.hosts);
    assert SubInv(s, p) && ArmedInv(s, p) && SeenInv(s, p) && CacheInv(s, p);
    assert History(s', p) == History(s, p);
    if UriOf(p) == UriOf(path) { UriOfInjective(p, path); }
    assert CachedHosts(s'.cache, UriOf(p)) == CachedHosts(s.cache, UriOf(p));
  }

  lemma SubscribeKeepsInv(s: State, step: Step)
    requires Inv(s) && Enabled(s, step) && step.Subscribe?
    ensures Inv(Next(s, step))
  {
    SubscribeKeepsPaths(s, step);
    SubscribedPath(s, step);
    var s' := Next(s, step);
    forall p | p in s.subs ensures SubInv(s', p) && ArmedInv(s', p) && SeenInv(s', p) && CacheInv(s', p) {
      SubscribeKeepsOther(s, step, p);
    }
  }

  lemma DequeueKeepsInv(s: State, step: Step)
    requires Inv(s) && Enabled(s, step) && (step.Dequeue? || step.SubscribeFails?)
    ensures Inv(Next(s, step))
  {
    var s' := Next(s, step);
    if step.Dequeue? { assert s.zk.queue == [s.zk.queue[0]] + s.zk.queue[1..]; assert s.zk.queue[0] in s.zk.queue; }
    forall p | p in s'.subs ensures SubInv(s', p) && ArmedInv(s', p) && SeenInv(s', p) && CacheInv(s', p) {
      assert SubInv(s, p) && ArmedInv(s, p) && SeenInv(s, p) && CacheInv(s, p);
      assert History(s', p) == History(s, p);
      ContainsSelf(p);
      assert Watched(s, p);
    }
  }

  lemma TellingKeepsOthers(s: State, s': State, path: string, p: string)
    requires p in s.subs && SubInv(s, p) && CacheInv(s, p) && p != path
    requires s'.cache == s.cache && s'.history.Keys == s.history.Keys + {path}
    requires p in s.history ==> s'.history[p] == s.history[p]
    requires !s.pc.Idle? && s.pc.path == path && (s'.pc.Idle? || s'.pc.path == path)
    ensures CacheInv(s', p) && History(s', p) == History(s, p)
  {
  }

  /** The listed node itself: its watch is armed again over what was just seen. */
  lemma ListChildrenOfItself(s: State, step: Step, p: string)
    requires Inv(s) && Enabled(s, step) && step.ListChildren? && p in s.subs && p == s.pc.path
    ensures var s' := Next(s, step); SubInv(s', p) && ArmedInv(s', p) && SeenInv(s', p) && CacheInv(s', p)
  {
    var s', hosts, h := Next(s, step), Sort(step.hosts), History(s, p);
    assert SubInv(s, p) && SeenInv(s, p) && CacheInv(s, p);
    SortCorrect(step.hosts);
    SortKeepsElements(step.hosts);
    assert History(s', p) == h + [hosts];
    assert (h + [hosts])[..|h|] == h;
  }

  lemma ListChildrenOfOther(s: State, step: Step, p: string)
    requires Inv(s) && Enabled(s, step) && step.ListChildren? && p in s.subs && p != s.pc.path
    ensures var s' := Next(s, step); SubInv(s', p) && ArmedInv(s', p) && SeenInv(s', p) && CacheInv(s', p)
  {
    var s' := Next(s, step);
    assert SubInv(s, p) && ArmedInv(s, p) && SeenInv(s, p) && CacheInv(s, p);
    if s.pc.path in s.zk.tree {
      TellingKeepsOthers(s, s', s.pc.path, p);
    } else {
      assert History(s', p) == History(s, p);
    }
  }

  lemma ListChildrenKeepsInv(s: State, step: Step)
    requires Inv(s) && Enabled(s, step) && step.ListChildren?
    ensures Inv(Next(s, step))
  {
    var s', path := Next(s, step), s.pc.path;
    if path in s.zk.tree { ListedHostsAreSegments(s.zk.tree, path, step.hosts); }
    forall p | p in s'.subs ensures SubInv(s', p) && ArmedInv(s', p) && SeenInv(s', p) && CacheInv(s', p) {
      if p == path { ListChildrenOfItself(s, step, p); } else { ListChildrenOfOther(s, step, p); }
    }
  }

  lemma WatchAgainKeepsInv(s: State, step: Step)
    requires Inv(s) && Enabled(s, step) && step.WatchAgain?
    ensures Inv(Next(s, step))
  {
    var s' := Next(s, step);
    forall p | p in s'.subs ensures SubInv(s', p) && ArmedInv(s', p) && SeenInv(s', p) && CacheInv(s', p) {
      assert SubInv(s, p) && ArmedInv(s, p) && SeenInv(s, p) && CacheInv(s, p);
      TellingKeepsOthers(s, s', s.pc.path, p);
    }
  }

  lemma CompareKeepsInv(s: State, step: Step)
    requires Inv(s) && Enabled(s, step) && step.CompareHosts?
    ensures Inv(Next(s, step))
  {
    var s' := Next(s, step);
    RootedMatches(s.pc.path);
    forall p | p in s'.subs ensures SubInv(s', p) && ArmedInv(s', p) && SeenInv(s', p) && CacheInv(s', p) {
      assert SubInv(s, p) && ArmedInv(s, p) && SeenInv(s, p) && CacheInv(s, p);
      assert History(s', p) == History(s, p);
    }
  }

  lemma PulledOneMore(metas: seq<ServiceMeta>, addrs: Hosts, meta: ServiceMeta)
    requires |metas| < |addrs| && HostsOf(metas) == addrs[..|metas|] && meta.hostPort == addrs[|metas|]
    ensures HostsOf(metas + [meta]) == addrs[..|metas| + 1]
  {
    assert HostsOf(metas + [meta]) == HostsOf(metas) + [meta.hostPort];
  }

  lemma ReadHostPulls(s: State, step: Step)
    requires Inv(s) && Enabled(s, step) && step.ReadHost?
    ensures PullInv(Next(s, step))
  {
    var s' := Next(s, step);
    var k := |s.pc.metas|;
    var host := s.pc.addrs[k];
    ReadIsHonest(s.zk.tree, s.pc.path, host);
    PulledOneMore(s.pc.metas, s.pc.addrs, s'.pc.metas[k]);
    assert s'.pc.metas == s.pc.metas + [s'.pc.metas[k]];
  }

  lemma ReadHostKeepsPaths(s: State, step: Step)
    requires Inv(s) && Enabled(s, step) && step.ReadHost?
    ensures PathsInv(Next(s, step))
  {
    HostPath(s.pc.path, s.pc.addrs[|s.pc.metas|]);
  }

  lemma ReadHostKeepsInv(s: State, step: Step)
    requires Inv(s) && Enabled(s, step) && step.ReadHost?
    ensures Inv(Next(s, step))
  {
    var s' := Next(s, step);
    ReadHostPulls(s, step);
    ReadHostKeepsPaths(s, step);
    assert s'.zk.tree == s.zk.tree && s'.zk.queue == s.zk.queue && s'.zk.childWatches == s.zk.childWatches;
    forall p | p in s'.subs ensures SubInv(s', p) && ArmedInv(s', p) && SeenInv(s', p) && CacheInv(s', p) {
      assert SubInv(s, p) && ArmedInv(s, p) && SeenInv(s, p) && CacheInv(s, p);
      assert History(s', p) == History(s, p);
    }
  }

  lemma StoreKeepsInv(s: State, step: Step)
    requires Inv(s) && Enabled(s, step) && step.Store?
    ensures Inv(Next(s, step))
  {
    var s' := Next(s, step);
    RootedMatches(s.pc.path);
    assert s.pc.addrs[..|s.pc.metas|] == s.pc.addrs;
    forall p | p in s'.subs ensures SubInv(s', p) && ArmedInv(s', p) && SeenInv(s', p) && CacheInv(s', p) {
      assert SubInv(s, p) && ArmedInv(s, p) && SeenInv(s, p) && CacheInv(s, p);
      assert History(s', p) == History(s, p);
      if p != s.pc.path && UriOf(p) == UriOf(s.pc.path) { UriOfInjective(p, s.pc.path); }
    }
  }

  lemma NextKeepsInv(s: State, step: Step)
    requires Inv(s) && Enabled(s, step)
    ensures Inv(Next(s, step))
  {
    match step
    case NodeAppears(_, _) => NodeAppearsKeepsInv(s, step);
    case NodeGoes(_) => NodeGoesKeepsInv(s, step);
    case Subscribe(_, _) => SubscribeKeepsInv(s, step);
    case SubscribeFails(_) => DequeueKeepsInv(s, step);
    case Dequeue => DequeueKeepsInv(s, step);
    case ListChildren(_) => ListChildrenKeepsInv(s, step);
    case WatchAgain => WatchAgainKeepsInv(s, step);
    case CompareHosts => CompareKeepsInv(s, step);
    case ReadHost => ReadHostKeepsInv(s, step);
    case Store => StoreKeepsInv(s, step);
  }

  lemma StartHasInv(s: State)
    requires Start(s)
    ensures Inv(s)
  {
  }

  lemma StepAtKeepsInv(states: seq<State>, steps: seq<Step>, i: nat)
    requires Run(states, steps) && i < |steps| && Inv(states[i])
    ensures Inv(states[i + 1])
  {
    assert StepAt(states, steps, i);
    NextKeepsInv(states[i], steps[i]);
  }

  /** Every state of every run satisfies the invariants. */
  lemma {:induction false} RunKeepsInv(states: seq<State>, steps: seq<Step>, i: nat)
    requires Run(states, steps) && i < |states|
    ensures Inv(states[i])
  {
    if i == 0 {
      StartHasInv(states[0]);
    } else {
      RunKeepsInv(states, steps, i - 1);
      StepAtKeepsInv(states, steps, i - 1);
    }
  }
}
