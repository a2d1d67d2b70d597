/** Stray entries in the client's cache by their cause: the deletion of nodes the client was watching. */
module StrayEntries {
  import opened GoStrings
  import opened ServiceUri
  import opened Discovery
  import opened DiscoveryInvariants
  import opened DiscoveryTheorems
  import opened CacheKeys

  /** The paths deleted so far while the client watched the node itself. */
  ghost function FallenAfter(s: State, step: Step, fallen: set<string>): set<string> {
    if step.NodeGoes? && step.path in s.zk.nodeWatches then fallen + {step.path} else fallen
  }

  ghost function Fallen(states: seq<State>, steps: seq<Step>, i: nat): set<string>
    requires |states| == |steps| + 1 && i < |states|
  {
    if i == 0 then {} else FallenAfter(states[i - 1], steps[i - 1], Fallen(states, steps, i - 1))
  }

  /** The k-th step of the run deletes q while the client watches it. */
  ghost predicate FallsAt(states: seq<State>, steps: seq<Step>, k: nat, q: string)
    requires |states| == |steps| + 1 && k < |steps|
  {
    steps[k] == NodeGoes(q) && q in states[k].zk.nodeWatches
  }

  lemma {:induction false} FallenAre(states: seq<State>, steps: seq<Step>, i: nat, q: string)
    requires |states| == |steps| + 1 && i < |states|
    ensures q in Fallen(states, steps, i) <==> exists k :: 0 <= k < i && FallsAt(states, steps, k, q)
  {
    if i > 0 {
      FallenAre(states, steps, i - 1, q);
      var now := FallsAt(states, steps, i - 1, q);
      assert now ==> exists k :: 0 <= k < i && FallsAt(states, steps, k, q);
    }
  }

  // ---------- every fallen path gets its entry ----------

  /** The deletion of q is on its way into the cache. */
  ghost predicate Pending(s: State, q: string) {
    Event(NodeDeleted, q) in s.zk.queue || s.pc == Gone(q) || s.pc == Compare(q, []) || s.pc == Pull(q, [], [])
  }

  ghost predicate Caught(s: State, q: string) {
    Rooted(q) && (UriOf(q) in s.cache || Pending(s, q))
  }

  lemma CoveredIsWatched(s: State, q: string)
    requires Inv(s) && Covered(s, q)
    ensures Watched(s, q)
  {
    var p :| p in s.subs && Below(p, q);
    assert SubInv(s, p);
    assert OccursAt(q, p, 0) by { assert q[0..0 + |p|] == p; }
    assert Contains(q, p);
  }

  lemma OutsideKeepsCaught(s: State, step: Step, q: string)
    requires Caught(s, q) && Enabled(s, step) && (step.NodeAppears? || step.NodeGoes?)
    ensures Caught(Next(s, step), q)
  {
    if step.NodeAppears? { AppearFires(s.zk, step.path, step.node); } else { DisappearFires(s.zk, step.path); }
  }

  lemma DequeueKeepsCaught(s: State, q: string)
    requires Inv(s) && ReachInv(s) && Caught(s, q) && Enabled(s, Dequeue)
    ensures Caught(Next(s, Dequeue), q)
  {
    assert s.zk.queue == [s.zk.queue[0]] + s.zk.queue[1..];
    if s.zk.queue[0] == Event(NodeDeleted, q) {
      assert s.zk.queue[0] in s.zk.queue;
      CoveredIsWatched(s, q);
    }
  }

  lemma ListenerKeepsCaught(s: State, step: Step, q: string)
    requires PathsInv(s) && Caught(s, q) && Enabled(s, step) && ListenerStep(step) && !step.Dequeue?
    ensures Caught(Next(s, step), q)
  {
    RootedMatches(s.pc.path);
  }

  lemma NextKeepsCaught(s: State, step: Step, q: string)
    requires Inv(s) && ReachInv(s) && Caught(s, q) && Enabled(s, step)
    ensures Caught(Next(s, step), q)
  {
    if step.NodeAppears? || step.NodeGoes? { OutsideKeepsCaught(s, step, q); }
    else if step.Dequeue? { DequeueKeepsCaught(s, q); }
    else if ListenerStep(step) { ListenerKeepsCaught(s, step, q); }
  }

  lemma FallingIsCaught(s: State, step: Step)
    requires Inv(s) && Enabled(s, step) && step.NodeGoes? && step.path in s.zk.nodeWatches
    ensures Caught(Next(s, step), step.path)
  {
  }

  // ---------- nothing else gets one ----------

  /** What the client deals with is subscribed or fallen, except for watches on nodes that are there. */
  ghost predicate SourceInv(s: State, fallen: set<string>) {
    var known := s.subs + fallen;
    && (forall uri :: uri in s.cache ==> SubscriptionPath(uri) in known)
    && (forall q :: q in s.zk.childWatches ==> q in known)
    && (forall q :: q in s.zk.nodeWatches && q !in s.zk.tree ==> q in known)
    && (forall e :: e in s.zk.queue ==> e.path in known)
    && (!s.pc.Idle? ==> s.pc.path in known)
  }

  lemma AppearKeepsSources(s: State, step: Step, fallen: set<string>)
    requires SourceInv(s, fallen) && Enabled(s, step) && step.NodeAppears?
    ensures SourceInv(Next(s, step), fallen)
  {
  }

  lemma GoKeepsSources(s: State, step: Step, fallen: set<string>)
    requires SourceInv(s, fallen) && Enabled(s, step) && step.NodeGoes?
    ensures SourceInv(Next(s, step), FallenAfter(s, step, fallen))
  {
  }

  lemma SubscribeKeepsSources(s: State, step: Step, fallen: set<string>)
    requires SourceInv(s, fallen) && Enabled(s, step) && step.Subscribe?
    ensures SourceInv(Next(s, step), fallen)
  {
  }

  lemma ListenerKeepsSources(s: State, step: Step, fallen: set<string>)
    requires Inv(s) && SourceInv(s, fallen) && Enabled(s, step) && (ListenerStep(step) || step.SubscribeFails?)
    ensures SourceInv(Next(s, step), fallen)
  {
    if !s.pc.Idle? { RootedMatches(s.pc.path); }
    if step.Dequeue? { assert s.zk.queue[0] in s.zk.queue; }
  }

  lemma NextKeepsSources(s: State, step: Step, fallen: set<string>)
    requires Inv(s) && SourceInv(s, fallen) && Enabled(s, step)
    ensures SourceInv(Next(s, step), FallenAfter(s, step, fallen))
  {
    match step
    case NodeAppears(_, _) => AppearKeepsSources(s, step, fallen);
    case NodeGoes(_) => GoKeepsSources(s, step, fallen);
    case Subscribe(_, _) => SubscribeKeepsSources(s, step, fallen);
    case _ => ListenerKeepsSources(s, step, fallen);
  }

  // ---------- over whole runs ----------

  lemma NextKeepsFallen(s: State, step: Step, fallen: set<string>)
    requires Inv(s) && ReachInv(s) && Enabled(s, step)
    requires forall q :: q in fallen ==> Caught(s, q)
    ensures forall q :: q in FallenAfter(s, step, fallen) ==> Caught(Next(s, step), q)
  {
    forall q | q in FallenAfter(s, step, fallen) ensures Caught(Next(s, step), q) {
      if q in fallen { NextKeepsCaught(s, step, q); } else { FallingIsCaught(s, step); }
    }
  }

  /** Every fallen path has its entry or is on its way to it, and everything else is subscribed. */
  ghost predicate FallenInv(s: State, fallen: set<string>) {
    SourceInv(s, fallen) && forall q :: q in fallen ==> Caught(s, q)
  }

  lemma StartHasNoneFallen(s: State)
    requires Start(s)
    ensures FallenInv(s, {})
  {
  }

  lemma StepAtKeepsFallen(states: seq<State>, steps: seq<Step>, i: nat, fallen: set<string>)
    requires Run(states, steps) && i < |steps| && FallenInv(states[i], fallen)
    ensures FallenInv(states[i + 1], FallenAfter(states[i], steps[i], fallen))
  {
    RunKeepsInv(states, steps, i);
    RunKeepsReach(states, steps, i);
    assert StepAt(states, steps, i);
    NextKeepsSources(states[i], steps[i], fallen);
    NextKeepsFallen(states[i], steps[i], fallen);
  }

  lemma {:induction false} RunKeepsFallen(states: seq<State>, steps: seq<Step>, i: nat)
    requires Run(states, steps) && i < |states|
    ensures FallenInv(states[i], Fallen(states, steps, i))
  {
    if i == 0 {
      StartHasNoneFallen(states[0]);
    } else {
      RunKeepsFallen(states, steps, i - 1);
      StepAtKeepsFallen(states, steps, i - 1, Fallen(states, steps, i - 1));
    }
  }

  /** Exactly when the cache of a client with nothing to do is free of stray entries, by what the other
      sessions did: every node they deleted while the client watched it is a subscribed one by now. */
  lemma CleanExactlyByDeletions(states: seq<State>, steps: seq<Step>, i: nat)
    requires Run(states, steps) && i < |states| && states[i].pc.Idle? && states[i].zk.queue == []
    ensures NoStrayEntry(states[i])
       <==> forall k, q | 0 <= k < i && FallsAt(states, steps, k, q) :: q in states[i].subs
  {
    RunKeepsFallen(states, steps, i);
    var s, fallen := states[i], Fallen(states, steps, i);
    forall q ensures q in fallen <==> exists k :: 0 <= k < i && FallsAt(states, steps, k, q) {
      FallenAre(states, steps, i, q);
    }
    assert NoStrayEntry(s) <==> fallen <= s.subs by { CleanIffFallenSubscribed(s, fallen); }
  }

  lemma CleanIffFallenSubscribed(s: State, fallen: set<string>)
    requires SourceInv(s, fallen) && s.pc.Idle? && s.zk.queue == []
    requires forall q :: q in fallen ==> Caught(s, q)
    ensures NoStrayEntry(s) <==> fallen <= s.subs
  {
    forall q | q in fallen ensures Rooted(q) && UriOf(q) in s.cache && SubscriptionPath(UriOf(q)) == q {
      assert Caught(s, q);
      RootedMatches(q);
    }
  }
}
