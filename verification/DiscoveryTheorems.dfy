/** What the discovery system promises over every run. */
module DiscoveryTheorems {
  import opened Wrappers
  import opened GoStrings
  import opened ServiceMetas
  import opened ServiceUri
  import opened HostHistory
  import opened ClientCache
  import opened ZkTree
  import opened Discovery
  import opened DiscoveryInvariants

  /** The listener is not between being told addresses for p and having dealt with them. */
  ghost predicate Handled(s: State, p: string) {
    !((s.pc.Compare? || s.pc.Pull?) && s.pc.path == p)
  }

  // ---------- no notification is lost ----------

  /** In every reachable state a subscribed service node has its child watch armed, or its event
      queued, or the listener about to list its children; and an armed watch means that the last
      observation is the present set of children. */
  lemma NoNotificationLost(states: seq<State>, steps: seq<Step>, i: nat, p: string)
    requires Run(states, steps) && i < |states| && p in states[i].subs
    ensures var s := states[i];
      && (p in s.zk.childWatches || Event(ChildrenChanged, p) in s.zk.queue || s.pc == Fetch(p))
      && History(s, p) != []
      && (p in s.zk.childWatches ==> Elements(Newest(History(s, p))) == Children(s.zk.tree, p))
  {
    RunKeepsInv(states, steps, i);
    assert ArmedInv(states[i], p) && SeenInv(states[i], p);
  }

  /** Once nothing about p is queued or in hand, the client has seen exactly the hosts that exist. */
  lemma QuietMeansCurrent(states: seq<State>, steps: seq<Step>, i: nat, p: string)
    requires Run(states, steps) && i < |states| && p in states[i].subs && Quiet(states[i], p)
    ensures p in states[i].zk.childWatches
    ensures History(states[i], p) != []
    ensures Elements(Newest(History(states[i], p))) == Children(states[i].zk.tree, p)
  {
    NoNotificationLost(states, steps, i, p);
    assert Event(ChildrenChanged, p) !in states[i].zk.queue;
  }

  // ---------- what the cache holds ----------

  /** For every run at all: the cached list of a subscribed uri is a sorted list of hosts that was
      observed at some time; when the latest observation is handled, it has that observation's
      length and its greatest host. */
  lemma CacheIsAnObservation(states: seq<State>, steps: seq<Step>, i: nat, p: string)
    requires Run(states, steps) && i < |states| && p in states[i].subs
    ensures Rooted(p) && UriOf(p) in states[i].cache && History(states[i], p) != []
    ensures var hosts, h := HostsOf(states[i].cache[UriOf(p)]), History(states[i], p);
      && hosts in h && Ascending(hosts) && Distinct(hosts)
      && (Handled(states[i], p) ==>
            && |hosts| == |Newest(h)|
            && (hosts != [] ==> Last(hosts) == Last(Newest(h))
                                && forall x :: x in Newest(h) ==> StrLe(x, Last(hosts))))
  {
    RunKeepsInv(states, steps, i);
    var s := states[i];
    assert SubInv(s, p) && SeenInv(s, p) && CacheInv(s, p);
    var h := History(s, p);
    var told := if Handled(s, p) then h else h[..|h| - 1];
    assert forall k :: 0 <= k < |told| ==> told[k] == h[k];
    EveryHistory(told);
    assert forall x :: x in told ==> x in h;
    forall x | Handled(s, p) && x in Newest(h) ensures StrLe(x, Last(RunHosts(h).value)) {
      CachesTheGreatest(h, x);
    }
  }

  /** In every reachable state the hosts cached for a subscribed uri are in ascending order: each is a
      prefix of the next or has the smaller character where they first differ. */
  lemma CachedHostsAreInOrder(states: seq<State>, steps: seq<Step>, n: nat, p: string, i: nat, j: nat)
    requires Run(states, steps) && n < |states| && p in states[n].subs
    requires Rooted(p) && UriOf(p) in states[n].cache && i < j < |states[n].cache[UriOf(p)]|
    ensures var a, b := states[n].cache[UriOf(p)][i].hostPort, states[n].cache[UriOf(p)][j].hostPort;
      a <= b || exists k :: 0 <= k < |a| && k < |b| && a[..k] == b[..k] && a[k] < b[k]
  {
    CacheIsAnObservation(states, steps, n, p);
    var hosts := HostsOf(states[n].cache[UriOf(p)]);
    assert StrLe(hosts[i], hosts[j]);
    StrLeIs(hosts[i], hosts[j]);
  }

  /** A pulled entry says what the node of its host holds, and the default where there is none. */
  lemma PulledFromNodes(t: Tree, path: string, uri: string, hosts: Hosts, i: nat)
    requires i < |hosts|
    ensures var m, q := Pulled(uri, hosts, ReadNodes(t, path, hosts))[i], path + "/" + hosts[i];
      if q in t && t[q].data.Meta? then m == t[q].data.meta
      else m.hostPort == hosts[i] && m.protoVersion == "v1" && !m.isPre
           && (if '#' in uri then uri == m.serviceUri + "#" + m.groupId && '#' !in m.serviceUri
               else m.serviceUri == uri && m.groupId == "*")
  {
    AddressPathIs(path, hosts[i]);
    PulledSays(uri, hosts, ReadNodes(t, path, hosts), i);
  }

  /** A subscription caches, for the hosts that are there, what their nodes hold. */
  lemma SubscriptionTells(states: seq<State>, steps: seq<Step>, n: nat, uri: string, i: nat)
    requires Run(states, steps) && n < |steps| && steps[n].Subscribe? && steps[n].uri == uri
    requires i < |Sort(steps[n].hosts)|
    ensures uri in states[n + 1].cache && |states[n + 1].cache[uri]| == |Sort(steps[n].hosts)|
    ensures var m, t := states[n + 1].cache[uri][i], states[n].zk.tree;
      var q := "/moa/service/v1" + uri + "/" + Sort(steps[n].hosts)[i];
      if q in t && t[q].data.Meta? then m == t[q].data.meta else m.hostPort == Sort(steps[n].hosts)[i] && !m.isPre
  {
    assert StepAt(states, steps, n);
    var hosts := Sort(steps[n].hosts);
    SortCorrect(steps[n].hosts);
    SubscriptionPathIs(uri);
    PulledFromNodes(states[n].zk.tree, SubscriptionPath(uri), uri, hosts, i);
  }

  /** The cache shows the latest handled observation of p. */
  ghost predicate ShowsLatest(s: State, p: string)
    requires Rooted(p)
  {
    History(s, p) != [] && CachedHosts(s.cache, UriOf(p)) == Some(Newest(History(s, p)))
  }

  /** After any handled observation the cache is exact unless the short cut was blind to it. */
  lemma HandledExactness(states: seq<State>, steps: seq<Step>, i: nat, p: string)
    requires Run(states, steps) && i < |states| && p in states[i].subs && Handled(states[i], p)
    ensures Rooted(p) && History(states[i], p) != []
    ensures var h := History(states[i], p);
      var before := RunHosts(h[..|h| - 1]);
      ShowsLatest(states[i], p) <==> !(before.Some? && Blind(before.value, Newest(h)))
  {
    RunKeepsInv(states, steps, i);
    assert SubInv(states[i], p) && SeenInv(states[i], p) && CacheInv(states[i], p);
  }

  /** From one state to the next the history of a subscribed path stays or grows by one, and it
      grows only when everything before was handled. */
  lemma HistoryGrows(s: State, step: Step, p: string)
    requires Inv(s) && Enabled(s, step) && p in Next(s, step).subs
    ensures p !in s.subs ==> |History(Next(s, step), p)| == 1 && Handled(Next(s, step), p)
    ensures p in s.subs ==>
      || History(Next(s, step), p) == History(s, p)
      || (Handled(s, p) && History(Next(s, step), p) != []
          && History(Next(s, step), p)[..|History(Next(s, step), p)| - 1] == History(s, p))
  {
    if p in s.subs { assert SubInv(s, p); }
    if step.Subscribe? { SubscriptionPathIs(step.uri); }
  }

  /** A subscription is never lost and its history never shrinks. */
  lemma HistoryExtends(s: State, step: Step, p: string)
    requires Inv(s) && Enabled(s, step) && p in s.subs
    ensures p in Next(s, step).subs
    ensures History(s, p) <= History(Next(s, step), p)
  {
    assert p in Next(s, step).subs;
    HistoryGrows(s, step, p);
    var h := History(Next(s, step), p);
    if h != [] { assert h[..|h| - 1] <= h; }
  }

  /** The number of observations of p that are dealt with. */
  ghost function HandledCount(s: State, p: string): int {
    |History(s, p)| - if Handled(s, p) then 0 else 1
  }

  /** A prefix dealt with after a step, and not just completed by it, was dealt with before. */
  lemma HandledBefore(s: State, step: Step, p: string, m: nat)
    requires Inv(s) && Enabled(s, step) && p in Next(s, step).subs
    requires 0 < m <= HandledCount(Next(s, step), p)
    requires !(Handled(Next(s, step), p) && m == |History(Next(s, step), p)|)
    ensures p in s.subs && m <= HandledCount(s, p)
    ensures History(s, p)[..m] == History(Next(s, step), p)[..m]
  {
    HistoryGrows(s, step, p);
    var h := History(Next(s, step), p);
    if History(s, p) != h { assert h[..|h| - 1][..m] == h[..m]; }
  }

  lemma StepsHandle(states: seq<State>, steps: seq<Step>, n: nat, p: string, m: nat)
    requires Run(states, steps) && n < |states| && p in states[n].subs
    requires 0 < m <= HandledCount(states[n], p)
    requires !(Handled(states[n], p) && m == |History(states[n], p)|)
    ensures n > 0 && p in states[n - 1].subs && m <= HandledCount(states[n - 1], p)
    ensures History(states[n - 1], p)[..m] == History(states[n], p)[..m]
  {
    assert n > 0 by { if n == 0 { assert states[0].subs == {}; } }
    RunKeepsInv(states, steps, n - 1);
    assert StepAt(states, steps, n - 1);
    HandledBefore(states[n - 1], steps[n - 1], p, m);
  }

  /** Every handled prefix of the history was the whole history at some state of the run. */
  lemma {:induction false} PrefixesWereReached(states: seq<State>, steps: seq<Step>, n: nat, p: string, m: nat)
      returns (j: nat)
    requires Run(states, steps) && n < |states| && p in states[n].subs
    requires 0 < m <= HandledCount(states[n], p)
    ensures j <= n && p in states[j].subs && Handled(states[j], p)
    ensures History(states[j], p) == History(states[n], p)[..m]
  {
    if Handled(states[n], p) && m == |History(states[n], p)| {
      j := n;
    } else {
      StepsHandle(states, steps, n, p, m);
      j := PrefixesWereReached(states, steps, n - 1, p, m);
    }
  }

  lemma RunExtends(states: seq<State>, steps: seq<Step>, i: nat, p: string)
    requires Run(states, steps) && i < |steps| && p in states[i].subs
    ensures p in states[i + 1].subs
    ensures History(states[i], p) <= History(states[i + 1], p)
  {
    RunKeepsInv(states, steps, i);
    assert StepAt(states, steps, i);
    HistoryExtends(states[i], steps[i], p);
  }

  lemma PrefixTransitive(a: seq<Hosts>, b: seq<Hosts>, c: seq<Hosts>)
    requires a <= b <= c
    ensures a <= c
  {
  }

  /** Earlier histories of a subscribed path are prefixes of later ones. */
  lemma {:induction false} HistoryIsMonotone(states: seq<State>, steps: seq<Step>, j: nat, n: nat, p: string)
    requires Run(states, steps) && j <= n < |states| && p in states[j].subs
    ensures p in states[n].subs
    ensures History(states[j], p) <= History(states[n], p)
  {
    if j < n {
      HistoryIsMonotone(states, steps, j, n - 1, p);
      RunExtends(states, steps, n - 1, p);
      PrefixTransitive(History(states[j], p), History(states[n - 1], p), History(states[n], p));
    }
  }

  /** The cache of p showed the latest observation at every state of the run up to n at which
      p was subscribed and nothing about it was half handled. */
  ghost predicate ExactUpTo(states: seq<State>, n: nat, p: string)
    requires n < |states| && Rooted(p)
  {
    forall j :: 0 <= j <= n && p in states[j].subs && Handled(states[j], p) ==> ShowsLatest(states[j], p)
  }

  lemma NoBlindStepKeepsExact(states: seq<State>, steps: seq<Step>, n: nat, p: string)
    requires Run(states, steps) && n < |states| && p in states[n].subs && Rooted(p)
    requires NoBlindStep(History(states[n], p))
    ensures ExactUpTo(states, n, p)
  {
    var h := History(states[n], p);
    NoBlindStepIsExact(h);
    forall j | 0 <= j <= n && p in states[j].subs && Handled(states[j], p) ensures ShowsLatest(states[j], p) {
      RunKeepsInv(states, steps, j);
      assert SeenInv(states[j], p) && CacheInv(states[j], p);
      HistoryIsMonotone(states, steps, j, n, p);
      var h1 := History(states[j], p);
      assert h[..|h1|] == h1;
    }
  }

  lemma ExactHasNoBlindStep(states: seq<State>, steps: seq<Step>, n: nat, p: string)
    requires Run(states, steps) && n < |states| && p in states[n].subs && Handled(states[n], p) && Rooted(p)
    requires ExactUpTo(states, n, p)
    ensures NoBlindStep(History(states[n], p))
  {
    var h := History(states[n], p);
    forall m | 0 < m <= |h| ensures RunHosts(h[..m]) == Some(h[m - 1]) {
      var j := PrefixesWereReached(states, steps, n, p, m);
      RunKeepsInv(states, steps, j);
      assert CacheInv(states[j], p) && ShowsLatest(states[j], p);
    }
    ExactExactlyWithoutBlindStep(h);
  }

  /** Exactly when the short cut does no harm: over a whole run the cache of a subscribed uri is
      exact if and only if no two successive observations agree in length and greatest host while
      differing elsewhere. */
  lemma ExactRunsAreThoseWithoutBlindStep(states: seq<State>, steps: seq<Step>, n: nat, p: string)
    requires Run(states, steps) && n < |states| && p in states[n].subs && Handled(states[n], p)
    ensures Rooted(p)
    ensures ExactUpTo(states, n, p) <==> NoBlindStep(History(states[n], p))
  {
    RunKeepsInv(states, steps, n);
    assert SubInv(states[n], p);
    if NoBlindStep(History(states[n], p)) { NoBlindStepKeepsExact(states, steps, n, p); }
    if ExactUpTo(states, n, p) { ExactHasNoBlindStep(states, steps, n, p); }
  }

  /** When successive observations are comparable by inclusion the cache is exact all along. */
  lemma ComparableRunsAreExact(states: seq<State>, steps: seq<Step>, n: nat, p: string)
    requires Run(states, steps) && n < |states| && p in states[n].subs && Handled(states[n], p)
    requires var h := History(states[n], p); forall k :: 0 < k < |h| ==> Comparable(h[k - 1], h[k])
    ensures Rooted(p) && ExactUpTo(states, n, p)
  {
    RunKeepsInv(states, steps, n);
    assert SeenInv(states[n], p);
    var h := History(states[n], p);
    forall k | 0 < k < |h| ensures !Blind(h[k - 1], h[k]) { ComparableIsNotBlind(h[k - 1], h[k]); }
    ExactRunsAreThoseWithoutBlindStep(states, steps, n, p);
  }

  /** End to end: when nothing is pending and no blind step happened, looking up uri and group
      gives exactly the hosts that have an address node at the path registration builds. */
  lemma LookupFindsTheRegistered(states: seq<State>, steps: seq<Step>, n: nat, u: string, g: string, host: string)
    requires Run(states, steps) && n < |states|
    requires var p := ServicePath(u, PROTOCOL, g);
      p in states[n].subs && Quiet(states[n], p) && NoBlindStep(History(states[n], p))
    ensures BuildServiceUri(u, g) in states[n].cache
    ensures host in HostsOf(states[n].cache[BuildServiceUri(u, g)])
       <==> Segment(host) && AddressPath(ServicePath(u, PROTOCOL, g), host) in states[n].zk.tree
  {
    var s, p := states[n], ServicePath(u, PROTOCOL, g);
    RunKeepsInv(states, steps, n);
    assert SubInv(s, p);
    ServicePathIs(u, PROTOCOL, g);
    SubscriptionPathIs(BuildServiceUri(u, g));
    assert UriOf(p) == BuildServiceUri(u, g);
    ExactRunsAreThoseWithoutBlindStep(states, steps, n, p);
    assert ShowsLatest(s, p);
    QuietMeansCurrent(states, steps, n, p);
    var hosts := HostsOf(s.cache[UriOf(p)]);
    assert host in hosts <==> host in Elements(hosts);
    ChildrenAreJoined(s.zk.tree, p, host);
    AddressPathIs(p, host);
  }

  // ---------- going on from a state ----------

  /** The steps are enabled one after the other and lead from s to t. */
  ghost predicate Leads(s: State, steps: seq<Step>, t: State)
    decreases |steps|
  {
    if steps == [] then s == t
    else Enabled(s, steps[0]) && Leads(Next(s, steps[0]), steps[1..], t)
  }

  lemma LeadsThrough(s: State, step: Step, rest: seq<Step>, t: State) returns (steps: seq<Step>)
    requires Enabled(s, step) && Leads(Next(s, step), rest, t)
    ensures steps == [step] + rest && Leads(s, steps, t)
  {
    steps := [step] + rest;
    assert steps[1..] == rest;
  }

  lemma RunGoesOn(states: seq<State>, steps: seq<Step>, step: Step, s': State)
    requires Run(states, steps) && Enabled(states[|steps|], step) && s' == Next(states[|steps|], step)
    ensures Run(states + [s'], steps + [step])
  {
    var states', steps' := states + [s'], steps + [step];
    forall i | 0 <= i < |steps'| ensures StepAt(states', steps', i) {
      if i < |steps| { assert StepAt(states, steps, i); }
    }
  }

  /** What a reachable state leads to is reachable: the run goes on there. */
  lemma {:induction false} LeadsWithinRuns(states: seq<State>, steps: seq<Step>, more: seq<Step>, t: State)
      returns (states': seq<State>)
    requires Run(states, steps) && Leads(states[|steps|], more, t)
    ensures Run(states', steps + more) && states'[|steps + more|] == t && states <= states'
    decreases |more|
  {
    if more == [] {
      states' := states;
      assert steps + more == steps;
    } else {
      var s' := Next(states[|steps|], more[0]);
      RunGoesOn(states, steps, more[0], s');
      states' := LeadsWithinRuns(states + [s'], steps + [more[0]], more[1..], t);
      assert steps + [more[0]] + more[1..] == steps + more;
    }
  }

  // ---------- the listener itself ----------

  lemma {:induction false} EverySetHasAListing(hosts: set<string>) returns (s: seq<string>)
    ensures Distinct(s) && Elements(s) == hosts
  {
    if hosts == {} {
      s := [];
    } else {
      var x :| x in hosts;
      var rest := EverySetHasAListing(hosts - {x});
      s := [x] + rest;
      assert forall y :: y in rest ==> y in Elements(rest);
      assert Elements(s) == Elements(rest) + {x};
    }
  }

  predicate ListenerStep(step: Step) {
    step.Dequeue? || step.ListChildren? || step.WatchAgain? || step.CompareHosts? || step.ReadHost? || step.Store?
  }

  /** With an event queued or in hand, one of the listener's steps is enabled. */
  lemma ListenerCanMove(s: State) returns (step: Step)
    requires Inv(s) && (!s.pc.Idle? || s.zk.queue != [])
    ensures ListenerStep(step) && Enabled(s, step)
    ensures !s.pc.Idle? ==> MatchUri(s.pc.path).Some?
  {
    if !s.pc.Idle? { RootedMatches(s.pc.path); }
    match s.pc
    case Idle => step := Dequeue;
    case Fetch(p) =>
      var hosts := EverySetHasAListing(Children(s.zk.tree, p));
      step := ListChildren(hosts);
    case Gone(_) => step := WatchAgain;
    case Compare(_, _) => step := CompareHosts;
    case Pull(_, addrs, metas) => step := if |metas| < |addrs| then ReadHost else Store;
  }

  /** The listener never panics on a path and never gets stuck in any reachable state. */
  lemma ListenerIsNeverStuck(states: seq<State>, steps: seq<Step>, i: nat) returns (step: Step)
    requires Run(states, steps) && i < |states|
    requires !states[i].pc.Idle? || states[i].zk.queue != []
    ensures ListenerStep(step) && Enabled(states[i], step)
    ensures !states[i].pc.Idle? ==> MatchUri(states[i].pc.path).Some?
  {
    RunKeepsInv(states, steps, i);
    step := ListenerCanMove(states[i]);
  }

  /** How far the listener is with the event in hand, and how many hosts it has still to read. */
  function Stage(pc: Pc): nat {
    match pc
    case Idle => 0
    case Pull(_, _, _) => 1
    case Compare(_, _) => 2
    case _ => 3
  }

  function ToRead(pc: Pc): int { if pc.Pull? then |pc.addrs| - |pc.metas| else 0 }

  /** The listener has less to do in s' than in s. */
  predicate Nearer(s': State, s: State) {
    || |s'.zk.queue| < |s.zk.queue|
    || (s'.zk.queue == s.zk.queue && Stage(s'.pc) < Stage(s.pc))
    || (s'.zk.queue == s.zk.queue && Stage(s'.pc) == Stage(s.pc) && 0 <= ToRead(s'.pc) < ToRead(s.pc))
  }

  /** Every step of the listener takes it nearer to having nothing to do: it takes an event from the
      queue and adds none, or it moves on with the event in hand. It changes nothing in the tree. */
  lemma ListenerStepsAreProgress(s: State, step: Step)
    requires Inv(s) && ListenerStep(step) && Enabled(s, step)
    ensures var s' := Next(s, step);
      && s'.zk.tree == s.zk.tree && s'.subs == s.subs
      && Nearer(s', s)
  {
  }

  lemma {:induction false} ListenerDrains(s: State) returns (steps: seq<Step>, t: State)
    requires Inv(s)
    ensures Leads(s, steps, t) && forall step :: step in steps ==> ListenerStep(step)
    ensures Inv(t) && t.pc.Idle? && t.zk.queue == [] && t.zk.tree == s.zk.tree && t.subs == s.subs
    decreases |s.zk.queue|, Stage(s.pc), ToRead(s.pc)
  {
    if s.pc.Idle? && s.zk.queue == [] {
      steps, t := [], s;
    } else {
      var step := ListenerCanMove(s);
      ListenerStepsAreProgress(s, step);
      NextKeepsInv(s, step);
      var rest;
      rest, t := ListenerDrains(Next(s, step));
      steps := LeadsThrough(s, step, rest, t);
    }
  }

  /** Convergence: from every reachable state the listener, left alone, comes to a state in which
      nothing is pending and the last observation of every subscribed path is its present children. */
  lemma ListenerCatchesUp(states: seq<State>, steps: seq<Step>, i: nat) returns (more: seq<Step>, t: State)
    requires Run(states, steps) && i < |states|
    ensures Leads(states[i], more, t) && forall step :: step in more ==> ListenerStep(step)
    ensures t.zk.tree == states[i].zk.tree && t.subs == states[i].subs
    ensures forall p :: p in t.subs ==>
      Quiet(t, p) && History(t, p) != [] && Elements(Newest(History(t, p))) == Children(t.zk.tree, p)
  {
    RunKeepsInv(states, steps, i);
    more, t := ListenerDrains(states[i]);
    forall p | p in t.subs
      ensures Quiet(t, p) && History(t, p) != [] && Elements(Newest(History(t, p))) == Children(t.zk.tree, p) {
      assert ArmedInv(t, p) && SeenInv(t, p);
    }
  }

  /** No step touches the entry of a uri other than the one it is about. */
  lemma OnlyOneUriChanges(states: seq<State>, steps: seq<Step>, i: nat, q: string)
    requires Run(states, steps) && i < |steps| && Rooted(q)
    requires steps[i].Store? && states[i].pc.Pull? ==> q != states[i].pc.path
    requires steps[i].Subscribe? ==> q != SubscriptionPath(steps[i].uri)
    ensures UriOf(q) in states[i + 1].cache <==> UriOf(q) in states[i].cache
    ensures UriOf(q) in states[i].cache ==> states[i + 1].cache[UriOf(q)] == states[i].cache[UriOf(q)]
  {
    RunKeepsInv(states, steps, i);
    var s := states[i];
    assert StepAt(states, steps, i);
    RootedMatches(q);
    if steps[i].Store? {
      RootedMatches(s.pc.path);
      if UriOf(q) == UriOf(s.pc.path) { UriOfInjective(q, s.pc.path); }
    }
  }

  /** A deleted address node is itself handled as if it were a service: three listener steps later
      there is an empty entry under the uri extended by the host, so looking that uri up succeeds. */
  lemma DeletedHostLeavesAnEntry(states: seq<State>, steps: seq<Step>, i: nat)
      returns (s1: State, s2: State)
    requires Run(states, steps) && i < |states| && states[i].pc.Gone?
    ensures Enabled(states[i], WatchAgain) && s1 == Next(states[i], WatchAgain)
    ensures Enabled(s1, CompareHosts) && s2 == Next(s1, CompareHosts)
    ensures Enabled(s2, Store) && Rooted(states[i].pc.path)
    ensures Next(s2, Store).cache == states[i].cache[UriOf(states[i].pc.path) := []]
  {
    RunKeepsInv(states, steps, i);
    RootedMatches(states[i].pc.path);
    s1 := Next(states[i], WatchAgain);
    s2 := Next(s1, CompareHosts);
  }

  // ---------- NodeChange as one call and as its steps ----------

  /** The pull in hand has read its hosts so far as they are in tree t. */
  ghost predicate PulledFrom(t: Tree, s: State) {
    && s.pc.Pull? && Rooted(s.pc.path) && s.zk.tree == t && |s.pc.metas| <= |s.pc.addrs|
    && var hosts := s.pc.addrs[..|s.pc.metas|];
       s.pc.metas == Pulled(UriOf(s.pc.path), hosts, ReadNodes(t, s.pc.path, hosts))
  }

  lemma ReadHostPullsFrom(t: Tree, s: State)
    requires PulledFrom(t, s) && Enabled(s, ReadHost)
    ensures PulledFrom(t, Next(s, ReadHost)) && Next(s, ReadHost).cache == s.cache
    ensures Next(s, ReadHost).pc.path == s.pc.path && Next(s, ReadHost).pc.addrs == s.pc.addrs
  {
    RootedMatches(s.pc.path);
    var k := |s.pc.metas|;
    assert s.pc.addrs[..k + 1] == s.pc.addrs[..k] + [s.pc.addrs[k]];
  }

  /** n reads in a row, without another step in between. */
  lemma {:induction false} ReadsPullFrom(states: seq<State>, steps: seq<Step>, i: nat, n: nat, t: Tree)
    requires Run(states, steps) && i + n < |states| && PulledFrom(t, states[i])
    requires forall j :: i <= j < i + n ==> steps[j] == ReadHost
    ensures PulledFrom(t, states[i + n]) && states[i + n].cache == states[i].cache
    ensures states[i + n].pc.path == states[i].pc.path && states[i + n].pc.addrs == states[i].pc.addrs
  {
    if n > 0 {
      ReadsPullFrom(states, steps, i, n - 1, t);
      assert StepAt(states, steps, i + n - 1);
      ReadHostPullsFrom(t, states[i + n - 1]);
    }
  }

  lemma CompareStartsPull(s: State)
    requires Inv(s) && Enabled(s, CompareHosts) && Next(s, CompareHosts).pc.Pull?
    ensures var s1 := Next(s, CompareHosts);
      && PulledFrom(s.zk.tree, s1)
      && s1.cache == s.cache && s1.pc.path == s.pc.path && s1.pc.addrs == s.pc.addrs
      && NeedsChange(s.cache, UriOf(s.pc.path), s.pc.addrs)
  {
    RootedMatches(s.pc.path);
  }

  lemma StoreEndsPull(t: Tree, s: State)
    requires PulledFrom(t, s) && Enabled(s, Store)
    ensures Next(s, Store).cache
         == s.cache[UriOf(s.pc.path) := Pulled(UriOf(s.pc.path), s.pc.addrs, ReadNodes(t, s.pc.path, s.pc.addrs))]
  {
    RootedMatches(s.pc.path);
    assert s.pc.addrs[..|s.pc.metas|] == s.pc.addrs;
  }

  /** n reads and the store after them. */
  lemma ReadsThenStore(states: seq<State>, steps: seq<Step>, i: nat, n: nat, t: Tree)
    requires Run(states, steps) && i + n < |steps| && PulledFrom(t, states[i])
    requires (forall j :: i <= j < i + n ==> steps[j] == ReadHost) && steps[i + n] == Store
    ensures var s := states[i];
      states[i + n + 1].cache
        == s.cache[UriOf(s.pc.path) := Pulled(UriOf(s.pc.path), s.pc.addrs, ReadNodes(t, s.pc.path, s.pc.addrs))]
  {
    ReadsPullFrom(states, steps, i, n, t);
    assert StepAt(states, steps, i + n);
    StoreEndsPull(t, states[i + n]);
  }

  /** A comparison that is followed by reading or storing found a change. */
  lemma ComparedUnequal(states: seq<State>, steps: seq<Step>, i: nat)
    requires Run(states, steps) && i + 1 < |steps| && steps[i] == CompareHosts
    requires steps[i + 1] == ReadHost || steps[i + 1] == Store
    ensures states[i].pc.Compare? && Rooted(states[i].pc.path)
    ensures PulledFrom(states[i].zk.tree, states[i + 1])
    ensures states[i + 1].cache == states[i].cache
    ensures states[i + 1].pc.path == states[i].pc.path && states[i + 1].pc.addrs == states[i].pc.addrs
    ensures NeedsChange(states[i].cache, UriOf(states[i].pc.path), states[i].pc.addrs)
  {
    RunKeepsInv(states, steps, i);
    assert StepAt(states, steps, i);
    assert states[i + 1].pc.Pull? by { assert StepAt(states, steps, i + 1); }
    CompareStartsPull(states[i]);
  }

  /** The method NodeChange of the registry object is what the listener's steps do when they run
      without interruption: comparing, reading each host and storing leave the cache it leaves. */
  lemma UninterruptedNodeChange(states: seq<State>, steps: seq<Step>, i: nat, n: nat, path: string, addrs: Hosts)
    requires Run(states, steps) && i + n + 1 < |steps|
    requires steps[i] == CompareHosts && states[i].pc == Compare(path, addrs)
    requires forall j :: i + 1 <= j < i + 1 + n ==> steps[j] == ReadHost
    requires steps[i + n + 1] == Store
    ensures Rooted(path)
    ensures states[i + n + 2].cache
         == Changed(states[i].cache, UriOf(path), addrs, ReadNodes(states[i].zk.tree, path, addrs))
  {
    ComparedUnequal(states, steps, i);
    ReadsThenStore(states, steps, i + 1, n, states[i].zk.tree);
  }

  /** When the comparison sees no change, it is all there is, and the cache stays. */
  lemma SkippedNodeChange(s: State)
    requires Inv(s) && Enabled(s, CompareHosts) && Next(s, CompareHosts).pc.Idle?
    ensures Rooted(s.pc.path)
    ensures Next(s, CompareHosts).cache
         == Changed(s.cache, UriOf(s.pc.path), s.pc.addrs, ReadNodes(s.zk.tree, s.pc.path, s.pc.addrs))
  {
    RootedMatches(s.pc.path);
  }
}
