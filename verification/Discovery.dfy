/** Service discovery as a system of steps: ZooKeeper with its one-shot watches, any number of
    other sessions that create and delete nodes, and one client with its listener (zk.go,
    registry_zk.go). Watches follow the section "ZooKeeper Watches" of the ZooKeeper Programmer's
    Guide; events reach the client's queue in order and none is lost. */
module Discovery {
  import opened Wrappers
  import opened GoStrings
  import opened ServiceMetas
  import opened ServiceUri
  import opened HostHistory
  import opened ClientCache
  import opened ZkTree

  datatype EventKind = NodeCreated | NodeDeleted | ChildrenChanged

  datatype Event = Event(kind: EventKind, path: string)

  // ---------- ZooKeeper as the client's session sees it ----------

  /** childWatches were left by ChildrenW; nodeWatches by GetW on a node or ExistsW on any path. */
  datatype Zk = Zk(tree: Tree, childWatches: set<string>, nodeWatches: set<string>, queue: seq<Event>)

  /** Fires the watches on the created or deleted node itself. */
  function FireNode(zk: Zk, kind: EventKind, path: string): Zk {
    var onChildren := kind == NodeDeleted && path in zk.childWatches;
    if path in zk.nodeWatches || onChildren then
      zk.(queue := zk.queue + [Event(kind, path)],
          nodeWatches := zk.nodeWatches - {path},
          childWatches := if onChildren then zk.childWatches - {path} else zk.childWatches)
    else zk
  }

  /** Fires the child watch of the parent. */
  function FireChildren(zk: Zk, parent: string): Zk {
    if parent in zk.childWatches then
      zk.(queue := zk.queue + [Event(ChildrenChanged, parent)], childWatches := zk.childWatches - {parent})
    else zk
  }

  function Appear(zk: Zk, path: string, node: Node): Zk {
    FireChildren(FireNode(zk.(tree := zk.tree[path := node]), NodeCreated, path), Parent(path))
  }

  function Disappear(zk: Zk, path: string): Zk {
    FireChildren(FireNode(zk.(tree := zk.tree - {path}), NodeDeleted, path), Parent(path))
  }

  // ---------- the client ----------

  /** Where the listener stands with the event it took from the queue. */
  datatype Pc =
    | Idle
    | Fetch(path: string)                                          // before ChildrenW
    | Gone(path: string)                                           // before ExistsW
    | Compare(path: string, addrs: Hosts)                          // NodeChange, before the read lock
    | Pull(path: string, addrs: Hosts, metas: seq<ServiceMeta>)    // reading nodes, then storing

  /** subs and history record what happened: the paths subscribed with success, and for each path
      the sorted address lists the client was given for it. */
  datatype State = State(
    zk: Zk,
    watchers: set<string>,
    cache: Cache,
    pc: Pc,
    subs: set<string>,
    history: map<string, seq<Hosts>>)

  datatype Step =
    | NodeAppears(path: string, node: Node)
    | NodeGoes(path: string)
    | Subscribe(uri: string, hosts: seq<string>)
    | SubscribeFails(uri: string)
    | Dequeue
    | ListChildren(hosts: seq<string>)
    | WatchAgain
    | CompareHosts
    | ReadHost
    | Store

  function History(s: State, path: string): seq<Hosts> {
    if path in s.history then s.history[path] else []
  }

  function Told(s: State, path: string, addrs: Hosts): map<string, seq<Hosts>> {
    s.history[path := History(s, path) + [addrs]]
  }

  predicate Watched(s: State, path: string) {
    exists k :: k in s.watchers && Contains(path, k)
  }

  /** hosts is an answer to listing the children of path, in any order. */
  ghost predicate Listing(zk: Zk, path: string, hosts: seq<string>) {
    path in zk.tree && Distinct(hosts) && Elements(hosts) == Children(zk.tree, path)
  }

  function ReadNode(t: Tree, path: string): Reply {
    if path in t then Found(t[path].data) else Missing
  }

  function ReadNodes(t: Tree, path: string, hosts: Hosts): (replies: seq<Reply>)
    ensures |replies| == |hosts|
    ensures forall i :: 0 <= i < |hosts| ==> replies[i] == ReadNode(t, AddressPath(path, hosts[i]))
  {
    seq(|hosts|, i requires 0 <= i < |hosts| => ReadNode(t, AddressPath(path, hosts[i])))
  }

  /** An address node that describes a host is named after that host. */
  predicate Truthful(path: string, node: Node) {
    node.data.Meta? ==> node.data.meta.hostPort == Base(path)
  }

  /** Nothing about this path is queued or being handled. */
  ghost predicate Quiet(s: State, path: string) {
    && (forall e :: e in s.zk.queue ==> e.path != path)
    && (s.pc.Idle? || s.pc.path != path)
  }

  // ---------- steps ----------

  ghost predicate Enabled(s: State, step: Step) {
    match step
    case NodeAppears(path, node) =>
      Create(s.zk.tree, path, node).Ok? && node.version == 0 && NoSpace(path) && Truthful(path, node)
    case NodeGoes(path) =>
      Delete(s.zk.tree, path, 0).Ok? && path !in s.subs
    case Subscribe(uri, hosts) =>
      && Listing(s.zk, SubscriptionPath(uri), hosts)
      && SubscriptionPath(uri) !in s.subs
      && Quiet(s, SubscriptionPath(uri))
    case SubscribeFails(uri) => SubscriptionPath(uri) !in s.zk.tree
    case Dequeue => s.pc.Idle? && s.zk.queue != []
    case ListChildren(hosts) =>
      s.pc.Fetch? && (s.pc.path in s.zk.tree ==> Listing(s.zk, s.pc.path, hosts))
    case WatchAgain => s.pc.Gone?
    case CompareHosts => s.pc.Compare? && MatchUri(s.pc.path).Some?
    case ReadHost => s.pc.Pull? && |s.pc.metas| < |s.pc.addrs| && MatchUri(s.pc.path).Some?
    case Store => s.pc.Pull? && |s.pc.metas| == |s.pc.addrs| && MatchUri(s.pc.path).Some?
  }

  ghost function Next(s: State, step: Step): State
    requires Enabled(s, step)
  {
    match step
    case NodeAppears(path, node) => s.(zk := Appear(s.zk, path, node))
    case NodeGoes(path) => s.(zk := Disappear(s.zk, path))
    case Subscribe(uri, hosts) => Subscribed(s, uri, Sort(hosts))
    case SubscribeFails(uri) => s.(watchers := s.watchers + {SubscriptionPath(uri)})
    case Dequeue =>
      var e := s.zk.queue[0];
      s.(zk := s.zk.(queue := s.zk.queue[1..]),
         pc := if !Watched(s, e.path) then Idle
               else if e.kind == NodeDeleted then Gone(e.path)
               else Fetch(e.path))
    case ListChildren(hosts) =>
      var path := s.pc.path;
      if path !in s.zk.tree then s.(pc := Idle)
      else s.(zk := s.zk.(childWatches := s.zk.childWatches + {path}),
              pc := Compare(path, Sort(hosts)),
              history := Told(s, path, Sort(hosts)))
    case WatchAgain =>
      var path := s.pc.path;
      s.(zk := s.zk.(nodeWatches := s.zk.nodeWatches + {path}),
         pc := Compare(path, []),
         history := Told(s, path, []))
    case CompareHosts =>
      s.(pc := if NeedsChange(s.cache, MatchUri(s.pc.path).value, s.pc.addrs)
               then Pull(s.pc.path, s.pc.addrs, []) else Idle)
    case ReadHost =>
      var host := s.pc.addrs[|s.pc.metas|];
      var path := AddressPath(s.pc.path, host);
      s.(zk := if path in s.zk.tree then s.zk.(nodeWatches := s.zk.nodeWatches + {path}) else s.zk,
         pc := s.pc.(metas := s.pc.metas
                            + [MetaOf(MatchUri(s.pc.path).value, host, ReadNode(s.zk.tree, path))]))
    case Store =>
      s.(cache := s.cache[MatchUri(s.pc.path).value := s.pc.metas], pc := Idle)
  }

  /** One iteration of the constructor's loop, from ChildrenW to the stored entry. */
  function Subscribed(s: State, uri: string, hosts: Hosts): State {
    var path := SubscriptionPath(uri);
    s.(zk := s.zk.(childWatches := s.zk.childWatches + {path},
                   nodeWatches := s.zk.nodeWatches + set h | h in hosts && AddressPath(path, h) in s.zk.tree
                                                       :: AddressPath(path, h)),
       watchers := s.watchers + {path},
       cache := s.cache[uri := Pulled(uri, hosts, ReadNodes(s.zk.tree, path, hosts))],
       subs := s.subs + {path},
       history := s.history[path := [hosts]])
  }

  ghost predicate Start(s: State) {
    && WellFormed(s.zk.tree)
    && (forall q :: q in s.zk.tree ==> NoSpace(q) && Truthful(q, s.zk.tree[q]))
    && s == State(Zk(s.zk.tree, {}, {}, []), {}, map[], Idle, {}, map[])
  }

  ghost predicate StepAt(states: seq<State>, steps: seq<Step>, i: nat)
    requires i < |steps| && |states| == |steps| + 1
  {
    Enabled(states[i], steps[i]) && states[i + 1] == Next(states[i], steps[i])
  }

  /** A finite run of the system. */
  ghost predicate Run(states: seq<State>, steps: seq<Step>) {
    && |states| == |steps| + 1
    && Start(states[0])
    && forall i :: 0 <= i < |steps| ==> StepAt(states, steps, i)
  }

  // ---------- invariants ----------

  predicate Rooted(path: string) {
    NoSpace(path) && |V1_ROOT| <= |path| && path[..|V1_ROOT|] == V1_ROOT
  }

  function UriOf(path: string): string
    requires Rooted(path)
  {
    path[|V1_ROOT|..]
  }

  lemma RootedMatches(path: string)
    requires Rooted(path)
    ensures MatchUri(path) == Some(UriOf(path))
    ensures path == V1_ROOT + UriOf(path) == SubscriptionPath(UriOf(path))
  {
    assert path == V1_ROOT + UriOf(path);
    assert forall i :: 0 <= i < |UriOf(path)| ==> UriOf(path)[i] == path[|V1_ROOT| + i];
    MatchUriOfRooted(UriOf(path));
    SubscriptionPathIs(UriOf(path));
  }

  ghost predicate TreeInv(t: Tree) {
    WellFormed(t) && forall q :: q in t ==> NoSpace(q) && Truthful(q, t[q])
  }

  /** Everything the client can be told about lies under the root. */
  ghost predicate PathsInv(s: State) {
    && (forall q :: q in s.zk.childWatches ==> Rooted(q))
    && (forall q :: q in s.zk.nodeWatches ==> Rooted(q))
    && (forall e :: e in s.zk.queue ==> Rooted(e.path))
    && (!s.pc.Idle? ==> Rooted(s.pc.path))
  }

  ghost predicate PullInv(s: State) {
    && (s.pc.Compare? || s.pc.Pull? ==> forall i :: 0 <= i < |s.pc.addrs| ==> Segment(s.pc.addrs[i]))
    && (s.pc.Pull? ==> |s.pc.metas| <= |s.pc.addrs| && HostsOf(s.pc.metas) == s.pc.addrs[..|s.pc.metas|])
  }

  /** A subscribed service node stays in the tree and is never reported deleted. */
  ghost predicate SubInv(s: State, p: string) {
    && Rooted(p) && p in s.zk.tree && p in s.watchers
    && Event(NodeDeleted, p) !in s.zk.queue
    && s.pc != Gone(p)
  }

  /** The next change below p is or will be noticed. */
  ghost predicate ArmedInv(s: State, p: string) {
    || p in s.zk.childWatches
    || Event(ChildrenChanged, p) in s.zk.queue
    || s.pc == Fetch(p)
  }

  ghost predicate SeenInv(s: State, p: string) {
    && History(s, p) != []
    && SortedHistory(History(s, p))
    && (p in s.zk.childWatches ==> Elements(Newest(History(s, p))) == Children(s.zk.tree, p))
  }

  function Newest(history: seq<Hosts>): Hosts
    requires history != []
  {
    history[|history| - 1]
  }

  /** The cache holds what the handled part of the history makes of it. */
  ghost predicate CacheInv(s: State, p: string)
    requires Rooted(p)
  {
    var h := History(s, p);
    var cached := CachedHosts(s.cache, UriOf(p));
    if (s.pc.Compare? || s.pc.Pull?) && s.pc.path == p then
      && |h| >= 2 && Newest(h) == s.pc.addrs
      && cached == RunHosts(h[..|h| - 1])
      && (s.pc.Pull? ==> RunHosts(h) == Some(s.pc.addrs))
    else cached == RunHosts(h)
  }

  ghost predicate Inv(s: State) {
    && TreeInv(s.zk.tree) && PathsInv(s) && PullInv(s)
    && forall p :: p in s.subs ==> SubInv(s, p) && ArmedInv(s, p) && SeenInv(s, p) && CacheInv(s, p)
  }
}
