/** What becomes of the watches on single nodes over a run, and of the events they turn into. */
module NodeWatches {
  import opened GoStrings
  import opened ServiceUri
  import opened ZkTree
  import opened Discovery
  import opened DiscoveryInvariants
  import opened DiscoveryTheorems
  import opened CacheKeys
  import opened StrayEntries

  /** The step creates or deletes the node q. */
  predicate Changes(step: Step, q: string) {
    (step.NodeAppears? || step.NodeGoes?) && step.path == q
  }

  lemma WatchStays(s: State, step: Step, q: string)
    requires Enabled(s, step) && q in s.zk.nodeWatches && !Changes(step, q)
    ensures q in Next(s, step).zk.nodeWatches
    ensures q in Next(s, step).zk.tree <==> q in s.zk.tree
  {
  }

  /** A watch on a node stays until the node is created or deleted. */
  lemma {:induction false} WatchLasts(states: seq<State>, steps: seq<Step>, k: nat, n: nat, q: string)
    requires Run(states, steps) && k <= n < |states| && q in states[k].zk.nodeWatches
    requires forall j :: k <= j < n ==> !Changes(steps[j], q)
    ensures q in states[n].zk.nodeWatches && (q in states[n].zk.tree <==> q in states[k].zk.tree)
  {
    if k < n {
      WatchLasts(states, steps, k, n - 1, q);
      assert StepAt(states, steps, n - 1);
      WatchStays(states[n - 1], steps[n - 1], q);
    }
  }

  lemma ReadingWatches(s: State, q: string)
    requires Enabled(s, ReadHost) && q == s.pc.path + "/" + s.pc.addrs[|s.pc.metas|] && q in s.zk.tree
    ensures q in Next(s, ReadHost).zk.nodeWatches && q in Next(s, ReadHost).zk.tree
  {
    AddressPathIs(s.pc.path, s.pc.addrs[|s.pc.metas|]);
  }

  lemma SubscribingWatches(s: State, uri: string, hosts: seq<string>, h: string)
    requires Enabled(s, Subscribe(uri, hosts)) && h in hosts && "/moa/service/v1" + uri + "/" + h in s.zk.tree
    ensures "/moa/service/v1" + uri + "/" + h in Next(s, Subscribe(uri, hosts)).zk.nodeWatches
  {
    SubscriptionPathIs(uri);
    AddressPathIs(SubscriptionPath(uri), h);
    SortCorrect(hosts);
    assert h in multiset(Sort(hosts));
  }

  /** Reading a host that is there leaves a watch on its node, which stays over the run until the node
      is deleted. */
  lemma ReadHostsStayWatched(states: seq<State>, steps: seq<Step>, k: nat, n: nat, q: string)
    requires Run(states, steps) && k < n < |states| && steps[k] == ReadHost
    requires states[k].pc.Pull? && |states[k].pc.metas| < |states[k].pc.addrs|
    requires q == states[k].pc.path + "/" + states[k].pc.addrs[|states[k].pc.metas|] && q in states[k].zk.tree
    requires forall j :: k < j < n ==> !Changes(steps[j], q)
    ensures q in states[n].zk.nodeWatches && q in states[n].zk.tree
  {
    assert StepAt(states, steps, k);
    ReadingWatches(states[k], q);
    WatchLasts(states, steps, k + 1, n, q);
  }

  /** So does a subscription for each of its hosts. */
  lemma SubscribedHostsStayWatched(states: seq<State>, steps: seq<Step>, k: nat, n: nat, h: string)
    requires Run(states, steps) && k < n < |states| && steps[k].Subscribe? && h in steps[k].hosts
    requires "/moa/service/v1" + steps[k].uri + "/" + h in states[k].zk.tree
    requires forall j :: k < j < n ==> !Changes(steps[j], "/moa/service/v1" + steps[k].uri + "/" + h)
    ensures "/moa/service/v1" + steps[k].uri + "/" + h in states[n].zk.nodeWatches
  {
    assert StepAt(states, steps, k);
    SubscribingWatches(states[k], steps[k].uri, steps[k].hosts, h);
    WatchLasts(states, steps, k + 1, n, "/moa/service/v1" + steps[k].uri + "/" + h);
  }

  /** After a deletion the listener watches for the node to come back, until it does. */
  lemma DeletedNodesStayWatched(states: seq<State>, steps: seq<Step>, k: nat, n: nat)
    requires Run(states, steps) && k < n < |states| && steps[k] == WatchAgain && states[k].pc.Gone?
    requires forall j :: k < j < n ==> !Changes(steps[j], states[k].pc.path)
    ensures states[k].pc.path in states[n].zk.nodeWatches
  {
    assert StepAt(states, steps, k);
    WatchLasts(states, steps, k + 1, n, states[k].pc.path);
  }

  /** The client is told of the creation or deletion of a node once, if it watches the node, or its
      children in case of a deletion; and of a change of children, if it watches those of the parent. */
  lemma ChangesAreReported(states: seq<State>, steps: seq<Step>, n: nat, q: string)
    requires Run(states, steps) && n < |steps| && Changes(steps[n], q) && q != Parent(q)
    ensures var zk, zk', goes := states[n].zk, states[n + 1].zk, steps[n].NodeGoes?;
      zk'.queue == zk.queue
        + (if q in zk.nodeWatches || (goes && q in zk.childWatches)
           then [Event(if goes then NodeDeleted else NodeCreated, q)] else [])
        + (if Parent(q) in zk.childWatches then [Event(ChildrenChanged, Parent(q))] else [])
      && q !in zk'.nodeWatches && Parent(q) !in zk'.childWatches && (goes ==> q !in zk'.childWatches)
  {
    assert StepAt(states, steps, n);
    ReportIs(states[n], steps[n]);
  }

  lemma ReportIs(s: State, step: Step)
    requires Enabled(s, step) && (step.NodeAppears? || step.NodeGoes?) && step.path != Parent(step.path)
    ensures var q, zk, zk', goes := step.path, s.zk, Next(s, step).zk, step.NodeGoes?;
      zk'.queue == zk.queue
        + (if q in zk.nodeWatches || (goes && q in zk.childWatches)
           then [Event(if goes then NodeDeleted else NodeCreated, q)] else [])
        + (if Parent(q) in zk.childWatches then [Event(ChildrenChanged, Parent(q))] else [])
      && q !in zk'.nodeWatches && Parent(q) !in zk'.childWatches && (goes ==> q !in zk'.childWatches)
  {
  }

  lemma WatchersGrow(s: State, step: Step)
    requires Enabled(s, step)
    ensures s.watchers <= Next(s, step).watchers
    ensures step.Subscribe? || step.SubscribeFails? ==> SubscriptionPath(step.uri) in Next(s, step).watchers
  {
  }

  /** A service, once subscribed with success or without, stays registered with the listener. */
  lemma {:induction false} WatchersStay(states: seq<State>, steps: seq<Step>, k: nat, n: nat)
    requires Run(states, steps) && k < n < |states| && (steps[k].Subscribe? || steps[k].SubscribeFails?)
    ensures SubscriptionPath(steps[k].uri) in states[n].watchers
  {
    assert StepAt(states, steps, n - 1);
    WatchersGrow(states[n - 1], steps[n - 1]);
    if k < n - 1 { WatchersStay(states, steps, k, n - 1); }
  }

  /** No event is dropped for want of a watcher: in every run, whatever is taken from the queue is
      handled, a deletion by watching again, anything else by listing the children. */
  lemma NoEventIsDropped(states: seq<State>, steps: seq<Step>, n: nat)
    requires Run(states, steps) && n < |steps| && steps[n] == Dequeue
    ensures states[n].zk.queue != [] && states[n + 1].zk.queue == states[n].zk.queue[1..]
    ensures var e := states[n].zk.queue[0];
      states[n + 1].pc == if e.kind == NodeDeleted then Gone(e.path) else Fetch(e.path)
  {
    RunKeepsInv(states, steps, n);
    RunKeepsReach(states, steps, n);
    assert StepAt(states, steps, n);
    assert states[n].zk.queue[0] in states[n].zk.queue;
    CoveredIsWatched(states[n], states[n].zk.queue[0].path);
  }

  /** In any state, an event on a path in which no registered path occurs is dropped without effect. */
  lemma UnwatchedIsDropped(s: State)
    requires Enabled(s, Dequeue) && forall k :: k in s.watchers ==> !Contains(s.zk.queue[0].path, k)
    ensures Next(s, Dequeue) == s.(zk := s.zk.(queue := s.zk.queue[1..]))
  {
  }

  /** A path that is gone when the listener comes to list it is left alone: no observation, no watch and
      no change of the cache. */
  lemma MissingIsLeftAlone(states: seq<State>, steps: seq<Step>, n: nat)
    requires Run(states, steps) && n < |steps| && steps[n].ListChildren?
    requires states[n].pc.Fetch? && states[n].pc.path !in states[n].zk.tree
    ensures states[n + 1] == states[n].(pc := Idle)
  {
    assert StepAt(states, steps, n);
  }

  /** What the listener is told when it lists a path: the children there are, in ascending order, with
      the watch armed again. */
  lemma ListingIsTold(states: seq<State>, steps: seq<Step>, n: nat)
    requires Run(states, steps) && n < |steps| && steps[n].ListChildren?
    requires states[n].pc.Fetch? && states[n].pc.path in states[n].zk.tree
    ensures var p, s' := states[n].pc.path, states[n + 1];
      && s'.pc.Compare? && s'.pc.path == p && p in s'.zk.childWatches
      && Ascending(s'.pc.addrs) && Distinct(s'.pc.addrs) && Elements(s'.pc.addrs) == Children(states[n].zk.tree, p)
  {
    assert StepAt(states, steps, n);
    SortCorrect(steps[n].hosts);
    SortKeepsElements(steps[n].hosts);
  }
}
