/** Which uris have an entry in the client's cache, over every run: those about which something was
    dealt with, subscribed or not. An entry is never taken out again. */
module CacheKeys {
  import opened GoStrings
  import opened ServiceUri
  import opened ZkTree
  import opened Discovery
  import opened DiscoveryInvariants
  import opened DiscoveryTheorems
  import opened StaleCache

  // ---------- the law of the keys ----------

  /** The uri of a path has an entry exactly if some observation of the path has been dealt with. */
  ghost predicate KeyLaw(s: State, q: string)
    requires Rooted(q)
  {
    UriOf(q) in s.cache <==> HandledCount(s, q) > 0
  }

  ghost predicate KeysInv(s: State) {
    && (forall q :: Rooted(q) ==> KeyLaw(s, q))
    && (forall uri :: uri in s.cache ==> Rooted(SubscriptionPath(uri)))
    && (s.pc.Compare? || s.pc.Pull? ==> History(s, s.pc.path) != [])
  }

  /** Being told something adds an observation that is not dealt with. */
  lemma TellingKeepsKeyLaw(s: State, step: Step, q: string)
    requires Inv(s) && KeysInv(s) && Enabled(s, step) && Rooted(q) && (step.ListChildren? || step.WatchAgain?)
    ensures KeyLaw(Next(s, step), q)
  {
    assert KeyLaw(s, q);
  }

  lemma StepKeepsKeyLaw(s: State, step: Step, q: string)
    requires Inv(s) && KeysInv(s) && Enabled(s, step) && Rooted(q)
    requires !step.Subscribe? && !step.ListChildren? && !step.WatchAgain?
    ensures KeyLaw(Next(s, step), q)
  {
    assert KeyLaw(s, q);
    if !s.pc.Idle? {
      RootedMatches(s.pc.path);
      if UriOf(q) == UriOf(s.pc.path) { UriOfInjective(q, s.pc.path); }
    }
  }

  lemma SubscribeKeepsKeyLaw(s: State, step: Step, q: string)
    requires Inv(s) && KeysInv(s) && Enabled(s, step) && Rooted(q) && step.Subscribe?
    ensures KeyLaw(Next(s, step), q)
  {
    var path := SubscriptionPath(step.uri);
    SubscribedHosts(s.zk.tree, step.uri, step.hosts);
    assert KeyLaw(s, q);
    if UriOf(q) == step.uri { UriOfInjective(q, path); }
  }

  lemma NextKeepsKeyPaths(s: State, step: Step, uri: string)
    requires Inv(s) && KeysInv(s) && Enabled(s, step) && uri in Next(s, step).cache
    ensures Rooted(SubscriptionPath(uri))
  {
    if step.Subscribe? { SubscribedHosts(s.zk.tree, step.uri, step.hosts); }
    if step.Store? { RootedMatches(s.pc.path); }
  }

  lemma NextKeepsTold(s: State, step: Step)
    requires KeysInv(s) && Enabled(s, step)
    requires Next(s, step).pc.Compare? || Next(s, step).pc.Pull?
    ensures History(Next(s, step), Next(s, step).pc.path) != []
  {
  }

  lemma NextKeepsKeys(s: State, step: Step)
    requires Inv(s) && KeysInv(s) && Enabled(s, step)
    ensures KeysInv(Next(s, step))
  {
    var s' := Next(s, step);
    forall q | Rooted(q) ensures KeyLaw(s', q) {
      if step.Subscribe? { SubscribeKeepsKeyLaw(s, step, q); }
      else if step.ListChildren? || step.WatchAgain? { TellingKeepsKeyLaw(s, step, q); }
      else { StepKeepsKeyLaw(s, step, q); }
    }
    forall uri | uri in s'.cache ensures Rooted(SubscriptionPath(uri)) { NextKeepsKeyPaths(s, step, uri); }
    if s'.pc.Compare? || s'.pc.Pull? { NextKeepsTold(s, step); }
  }

  lemma {:induction false} RunKeepsKeys(states: seq<State>, steps: seq<Step>, i: nat)
    requires Run(states, steps) && i < |states|
    ensures KeysInv(states[i])
  {
    if i > 0 {
      RunKeepsKeys(states, steps, i - 1);
      RunKeepsInv(states, steps, i - 1);
      assert StepAt(states, steps, i - 1);
      NextKeepsKeys(states[i - 1], steps[i - 1]);
    }
  }

  /** In every reachable state a uri has an entry exactly if an observation of its path has been dealt
      with: the first listing of a subscription, or any event about that path. */
  lemma EntriesAreWhatWasHandled(states: seq<State>, steps: seq<Step>, i: nat, q: string)
    requires Run(states, steps) && i < |states| && Rooted(q)
    ensures UriOf(q) in states[i].cache <==> HandledCount(states[i], q) > 0
  {
    RunKeepsKeys(states, steps, i);
    assert KeyLaw(states[i], q);
  }

  /** Every entry is that of a subscribed service. */
  ghost predicate NoStrayEntry(s: State) {
    forall uri :: uri in s.cache ==> SubscriptionPath(uri) in s.subs
  }

  /** Exactly when that is so: no observation of a path that is not subscribed was dealt with. */
  lemma CleanExactly(states: seq<State>, steps: seq<Step>, i: nat)
    requires Run(states, steps) && i < |states|
    ensures NoStrayEntry(states[i])
       <==> forall q :: Rooted(q) && q !in states[i].subs ==> HandledCount(states[i], q) == 0
  {
    RunKeepsKeys(states, steps, i);
    var s := states[i];
    forall q | Rooted(q) ensures KeyLaw(s, q) && SubscriptionPath(UriOf(q)) == q && HandledCount(s, q) >= 0 {
      RootedMatches(q);
    }
    forall uri | uri in s.cache
      ensures Rooted(SubscriptionPath(uri)) && UriOf(SubscriptionPath(uri)) == uri { SubscriptionPathIs(uri); }
  }

  // ---------- how far the client's knowledge reaches ----------

  /** x is p or a path under it. */
  predicate Below(p: string, x: string) {
    p <= x && (|x| == |p| || x[|p|] == '/')
  }

  ghost predicate Covered(s: State, x: string) {
    exists p :: p in s.subs && Below(p, x)
  }

  /** The client has nothing to do with any path but those at or under its subscriptions. */
  ghost predicate ReachInv(s: State) {
    && (forall x :: x in s.zk.childWatches ==> Covered(s, x))
    && (forall x :: x in s.zk.nodeWatches ==> Covered(s, x))
    && (forall e :: e in s.zk.queue ==> Covered(s, e.path))
    && (!s.pc.Idle? ==> Covered(s, s.pc.path))
    && (forall x :: x in s.history ==> Covered(s, x))
  }

  lemma HostIsBelow(s: State, x: string, host: string)
    requires Covered(s, x)
    ensures Covered(s, AddressPath(x, host))
  {
    AddressPathIs(x, host);
    var p :| p in s.subs && Below(p, x);
    assert Below(p, x + "/" + host);
  }

  lemma CoveredStays(s: State, s': State, x: string)
    requires s.subs <= s'.subs && Covered(s, x)
    ensures Covered(s', x)
  {
  }

  lemma OutsideKeepsReach(s: State, zk': Zk)
    requires ReachInv(s) && Fired(s.zk, zk')
    ensures ReachInv(s.(zk := zk'))
  {
    var s' := s.(zk := zk');
    forall x | Covered(s, x) ensures Covered(s', x) { CoveredStays(s, s', x); }
    forall e | e in zk'.queue ensures Covered(s', e.path) {
      if e !in s.zk.queue { assert e.path in s.zk.childWatches + s.zk.nodeWatches; }
    }
  }

  lemma SubscribeKeepsReach(s: State, step: Step)
    requires ReachInv(s) && Enabled(s, step) && step.Subscribe?
    ensures ReachInv(Next(s, step))
  {
    var s', path, hosts := Next(s, step), SubscriptionPath(step.uri), Sort(step.hosts);
    assert Below(path, path);
    assert path in s'.subs;
    forall x | Covered(s, x) ensures Covered(s', x) { CoveredStays(s, s', x); }
    forall x | x in s'.zk.nodeWatches ensures Covered(s', x) {
      if x !in s.zk.nodeWatches {
        var h :| h in hosts && x == AddressPath(path, h);
        HostIsBelow(s', path, h);
      }
    }
  }

  lemma ListenerKeepsReach(s: State, step: Step)
    requires ReachInv(s) && Enabled(s, step) && (ListenerStep(step) || step.SubscribeFails?)
    ensures ReachInv(Next(s, step))
  {
    var s' := Next(s, step);
    assert s'.subs == s.subs;
    forall x | Covered(s, x) ensures Covered(s', x) { CoveredStays(s, s', x); }
    if step.Dequeue? { assert s.zk.queue[0] in s.zk.queue; }
    if step.ReadHost? { HostIsBelow(s, s.pc.path, s.pc.addrs[|s.pc.metas|]); }
    forall e | e in s'.zk.queue ensures Covered(s', e.path) { assert e in s.zk.queue; }
  }

  lemma NextKeepsReach(s: State, step: Step)
    requires ReachInv(s) && Enabled(s, step)
    ensures ReachInv(Next(s, step))
  {
    match step
    case NodeAppears(path, node) =>
      AppearFires(s.zk, path, node);
      OutsideKeepsReach(s, Appear(s.zk, path, node));
    case NodeGoes(path) =>
      DisappearFires(s.zk, path);
      OutsideKeepsReach(s, Disappear(s.zk, path));
    case Subscribe(_, _) => SubscribeKeepsReach(s, step);
    case _ => ListenerKeepsReach(s, step);
  }

  lemma {:induction false} RunKeepsReach(states: seq<State>, steps: seq<Step>, i: nat)
    requires Run(states, steps) && i < |states|
    ensures ReachInv(states[i])
  {
    if i > 0 {
      RunKeepsReach(states, steps, i - 1);
      assert StepAt(states, steps, i - 1);
      NextKeepsReach(states[i - 1], steps[i - 1]);
    }
  }

  lemma EntriesAreCovered(s: State, uri: string)
    requires KeysInv(s) && ReachInv(s)
    ensures uri in s.cache ==> Covered(s, SubscriptionPath(uri))
  {
    if uri in s.cache {
      var q := SubscriptionPath(uri);
      SubscriptionPathIs(uri);
      assert Rooted(q) && UriOf(q) == uri;
      assert KeyLaw(s, q);
      assert q in s.history;
    }
  }

  /** A service at or under no subscription is not known: whatever is published there and whatever
      else happens, it has no entry and no watch, and no event about it is queued. */
  lemma UncoveredIsUnknown(states: seq<State>, steps: seq<Step>, i: nat, uri: string)
    requires Run(states, steps) && i < |states| && !Covered(states[i], SubscriptionPath(uri))
    ensures var s, q := states[i], SubscriptionPath(uri);
      && uri !in s.cache
      && q !in s.zk.childWatches && q !in s.zk.nodeWatches
      && (forall e :: e in s.zk.queue ==> e.path != q)
  {
    RunKeepsReach(states, steps, i);
    RunKeepsKeys(states, steps, i);
    EntriesAreCovered(states[i], uri);
  }

  lemma UncoveredStep(s: State, step: Step, q: string)
    requires Enabled(s, step) && !Covered(s, q)
    requires step.Subscribe? ==> !Below(SubscriptionPath(step.uri), q)
    ensures !Covered(Next(s, step), q)
  {
  }

  lemma {:induction false} StaysUncovered(states: seq<State>, steps: seq<Step>, k: nat, n: nat, q: string)
    requires Run(states, steps) && k <= n < |states| && !Covered(states[k], q)
    requires forall j :: k <= j < n && steps[j].Subscribe? ==> !Below(SubscriptionPath(steps[j].uri), q)
    ensures !Covered(states[n], q)
  {
    if k < n {
      StaysUncovered(states, steps, k, n - 1, q);
      assert StepAt(states, steps, n - 1);
      UncoveredStep(states[n - 1], steps[n - 1], q);
    }
  }

  /** A failed subscription fails for good: after the step at which the service node was missing, and
      until some later subscription covers its path, the service has no entry and nobody watches it,
      whatever is published there. */
  lemma FailedSubscriptionStaysUnknown(states: seq<State>, steps: seq<Step>, k: nat, n: nat, uri: string)
    requires Run(states, steps) && k < n < |states|
    requires steps[k] == SubscribeFails(uri) && !Covered(states[k], SubscriptionPath(uri))
    requires forall j :: k < j < n && steps[j].Subscribe? ==>
               !Below(SubscriptionPath(steps[j].uri), SubscriptionPath(uri))
    ensures var s, q := states[n], SubscriptionPath(uri);
      && uri !in s.cache
      && q !in s.zk.childWatches && q !in s.zk.nodeWatches
      && (forall e :: e in s.zk.queue ==> e.path != q)
  {
    StaysUncovered(states, steps, k, n, SubscriptionPath(uri));
    UncoveredIsUnknown(states, steps, n, uri);
  }

  // ---------- entries stay ----------

  lemma NextKeepsEntries(s: State, step: Step)
    requires Enabled(s, step)
    ensures s.cache.Keys <= Next(s, step).cache.Keys
  {
  }

  /** What has an entry once has one for ever. */
  lemma {:induction false} EntriesStay(states: seq<State>, steps: seq<Step>, i: nat, n: nat)
    requires Run(states, steps) && i <= n < |states|
    ensures states[i].cache.Keys <= states[n].cache.Keys
  {
    if i < n {
      EntriesStay(states, steps, i, n - 1);
      assert StepAt(states, steps, n - 1);
      NextKeepsEntries(states[n - 1], steps[n - 1]);
    }
  }

  // ---------- a run that leaves a stray entry ----------

  /** Host a of p is there and was read, so that its node is watched. */
  ghost predicate WasRead(s: State, p: string, a: string)
    requires Settled(s, p)
  {
    && a in Shown(s, p) && Join(p, a) in s.zk.tree && s.zk.tree[Join(p, a)].owner.Some?
    && Join(p, a) !in s.subs && Join(p, a) in s.zk.nodeWatches
  }

  /** The deletion of such a node puts the event about the node itself first. */
  lemma ReadHostGoes(s: State, p: string, a: string) returns (s1: State)
    requires Settled(s, p) && WasRead(s, p, a)
    ensures Enabled(s, NodeGoes(Join(p, a))) && s1 == Next(s, NodeGoes(Join(p, a)))
    ensures s1 == s.(zk := s1.zk) && s1.zk.queue != [] && s1.zk.queue[0] == Event(NodeDeleted, Join(p, a))
    ensures s1.zk.tree == s.zk.tree - {Join(p, a)}
  {
    var t, pa := s.zk.tree, Join(p, a);
    assert a in Elements(Shown(s, p));
    ChildrenAreJoined(t, p, a);
    JoinParts(p, a);
    EphemeralsAreLeaves(t, pa);
    s1 := Next(s, NodeGoes(pa));
  }

  lemma ChildIsWatched(s: State, p: string, a: string)
    requires p in s.watchers
    ensures Watched(s, Join(p, a))
  {
    var pa := Join(p, a);
    assert OccursAt(pa, p, 0) by { assert pa[0..0 + |p|] == p; }
    assert Contains(pa, p);
  }

  /** A deleted node taken from the queue ends as an empty entry. */
  lemma DeletionIsStored(s: State, q: string) returns (steps: seq<Step>, t: State)
    requires s.pc.Idle? && s.zk.queue != [] && s.zk.queue[0] == Event(NodeDeleted, q)
    requires Watched(s, q) && Rooted(q)
    ensures Leads(s, steps, t)
    ensures t.cache == s.cache[UriOf(q) := []] && t.zk.tree == s.zk.tree && t.subs == s.subs
  {
    RootedMatches(q);
    var s1 := Next(s, Dequeue);
    var s2 := Next(s1, WatchAgain);
    var s3 := Next(s2, CompareHosts);
    t := Next(s3, Store);
    steps := LeadsThrough(s3, Store, [], t);
    steps := LeadsThrough(s2, CompareHosts, steps, t);
    steps := LeadsThrough(s1, WatchAgain, steps, t);
    steps := LeadsThrough(s, Dequeue, steps, t);
  }

  /** From every settled state: when a host that was read goes, the listener comes to a state in which
      the uri extended by the host has an entry, although nobody subscribed it and nothing is there. */
  lemma DeletedHostBecomesAnEntry(s: State, p: string, a: string) returns (steps: seq<Step>, t: State)
    requires Settled(s, p) && WasRead(s, p, a)
    ensures Leads(s, steps, t) && Rooted(Join(p, a))
    ensures t.cache == s.cache[UriOf(Join(p, a)) := []]
    ensures Join(p, a) !in t.zk.tree && Join(p, a) !in t.subs
  {
    var pa := Join(p, a);
    var s1 := ReadHostGoes(s, p, a);
    assert Rooted(pa);
    assert p in s1.watchers by { assert SubInv(s, p); }
    ChildIsWatched(s1, p, a);
    steps, t := DeletionIsStored(s1, pa);
    steps := LeadsThrough(s, NodeGoes(pa), steps, t);
  }
}
