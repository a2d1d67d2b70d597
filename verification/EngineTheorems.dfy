/** What holds in every reachable state of the invocation engine. */
module EngineTheorems {
  import opened Wrappers
  import opened Dispatch
  import opened Invocation
  import opened Engine

  // ---------- the heap ----------

  /** From s to s' objects stay where they are, with their labels, and entries are only added. */
  ghost predicate HeapGrows(s: State, s': State) {
    && |s.maps| <= |s'.maps| && |s.counters| <= |s'.counters|
    && (forall i :: 0 <= i < |s.maps| ==>
          s'.maps[i].service == s.maps[i].service && s'.maps[i].client == s.maps[i].client)
    && (forall j :: 0 <= j < |s.counters| ==> s'.counters[j].key == s.counters[j].key)
  }

  lemma RefsStay(s: State, s': State, th: Thread)
    requires RefsInv(s, th) && HeapGrows(s, s')
    ensures RefsInv(s', th)
  {
  }

  lemma WithClientKeepsTables(s: State, k: (string, string))
    requires TablesInv(s)
    ensures TablesInv(WithClient(s, k)) && HeapGrows(s, WithClient(s, k))
    ensures k in WithClient(s, k).table
  {
  }

  lemma WithCounterKeepsTables(s: State, i: nat, name: string)
    requires TablesInv(s) && i < |s.maps|
    ensures TablesInv(WithCounter(s, i, name)) && HeapGrows(s, WithCounter(s, i, name))
    ensures name in WithCounter(s, i, name).maps[i].entries
  {
    if name !in s.maps[i].entries { NewCounterKeepsTables(s, i, name); }
  }

  lemma NewCounterKeepsTables(s: State, i: nat, name: string)
    requires TablesInv(s) && i < |s.maps| && name !in s.maps[i].entries
    ensures TablesInv(WithCounter(s, i, name)) && HeapGrows(s, WithCounter(s, i, name))
  {
    NewCounterIsHome(s, i, name);
    NewCounterIsEntered(s, i, name);
  }

  lemma NewCounterIsHome(s: State, i: nat, name: string)
    requires TablesInv(s) && i < |s.maps| && name !in s.maps[i].entries
    ensures HomesInv(WithCounter(s, i, name))
  {
  }

  lemma NewCounterIsEntered(s: State, i: nat, name: string)
    requires TablesInv(s) && i < |s.maps| && name !in s.maps[i].entries
    ensures EntriesInv(WithCounter(s, i, name))
  {
  }

  lemma EvictedKeepsTables(s: State, k: (string, string))
    requires HeapInv(s)
    ensures TablesInv(Evicted(s, k)) && HeapGrows(s, Evicted(s, k))
  {
  }

  lemma CountingKeepsTables(s: State, j: nat)
    requires TablesInv(s) && j < |s.counters|
    ensures var s' := s.(counters := s.counters[j := s.counters[j].(count := s.counters[j].count + 1)]);
      TablesInv(s') && HeapGrows(s, s')
  {
  }

  lemma SameTables(s: State, s': State)
    requires TablesInv(s) && s'.table == s.table && s'.maps == s.maps && s'.counters == s.counters
    ensures TablesInv(s') && HeapGrows(s, s')
  {
  }

  lemma StoresKeepTables(s: State, th: Thread)
    requires TablesInv(s) && RefsInv(s, th) && (th.pc.StoreClient? || th.pc.StoreMethod?)
    ensures TablesInv(Shared(s, th)) && HeapGrows(s, Shared(s, th))
    ensures Shared(s, th).threads == s.threads
  {
    if th.pc.StoreClient? { WithClientKeepsTables(s, ClientOf(th)); }
    else { WithCounterKeepsTables(s, th.pc.flows, th.pc.name); }
  }

  lemma CountsKeepTables(s: State, th: Thread)
    requires TablesInv(s) && RefsInv(s, th) && !th.pc.StoreClient? && !th.pc.StoreMethod?
    ensures TablesInv(Shared(s, th)) && HeapGrows(s, Shared(s, th))
    ensures Shared(s, th).threads == s.threads
  {
    if th.pc.Counting? { CountingKeepsTables(s, th.pc.counter); } else { SameTables(s, Shared(s, th)); }
  }

  /** The shared part of one action. */
  lemma SharedKeepsTables(s: State, th: Thread)
    requires TablesInv(s) && RefsInv(s, th)
    ensures TablesInv(Shared(s, th)) && HeapGrows(s, Shared(s, th))
    ensures Shared(s, th).threads == s.threads
  {
    if th.pc.StoreClient? || th.pc.StoreMethod? { StoresKeepTables(s, th); } else { CountsKeepTables(s, th); }
  }

  lemma MovedHoldsRefs(u: Setup, s: State, th: Thread)
    requires GoodTable(u.instances) && TablesInv(s) && RefsInv(s, th) && !th.pc.Finished?
    ensures RefsInv(Shared(s, th), Moved(u, s, th))
  {
    SharedKeepsTables(s, th);
    match th.pc
    case StoreClient(_) => WithClientKeepsTables(s, ClientOf(th));
    case StoreMethod(name, i) => WithCounterKeepsTables(s, i, name);
    case _ =>
  }

  lemma AdvanceKeepsHeap(u: Setup, s: State, t: nat)
    requires GoodTable(u.instances) && HeapInv(s) && Enabled(s, Advance(t))
    ensures HeapInv(Next(u, s, Advance(t)))
  {
    var th := s.threads[t];
    SharedKeepsTables(s, th);
    MovedHoldsRefs(u, s, th);
    var s' := Next(u, s, Advance(t));
    forall r | 0 <= r < |s'.threads| ensures RefsInv(s', s'.threads[r]) {
      if r != t { RefsStay(s, s', s.threads[r]); }
    }
  }

  lemma EvictKeepsHeap(s: State, k: (string, string))
    requires HeapInv(s)
    ensures HeapInv(Evicted(s, k))
  {
    EvictedKeepsTables(s, k);
    forall r | 0 <= r < |s.threads| ensures RefsInv(Evicted(s, k), s.threads[r]) {
      RefsStay(s, Evicted(s, k), s.threads[r]);
    }
  }

  lemma NextKeepsHeap(u: Setup, s: State, step: Step)
    requires GoodTable(u.instances) && HeapInv(s) && Enabled(s, step)
    ensures HeapInv(Next(u, s, step))
  {
    match step
    case Arrive(_, _, _) =>
    case Advance(t) => AdvanceKeepsHeap(u, s, t);
    case Evict(service, client) => EvictKeepsHeap(s, (service, client));
    case Take(_) =>
  }

  // ---------- one invocation ----------

  function N(b: Bump, bumps: seq<Bump>): nat {
    if bumps == [] then 0 else (if bumps[0] == b then 1 else 0) + N(b, bumps[1..])
  }

  /** The key an invocation counts under, if its method is found. */
  function ExpectedKey(u: Setup, th: Thread): Option<Key> {
    match Lookup(u.instances, th.req.serviceUri, th.req.methodName)
    case Reached(m) => Some(KeyOf(th, m.name))
    case _ => None
  }

  /** What an invocation has counted and answered, by where it stands. */
  ghost predicate ThreadInv(u: Setup, th: Thread)
    requires GoodTable(u.instances)
  {
    var v := VerdictOf(u, th);
    var untouched := th.proc == 0 && th.err == 0 && th.counted == None && th.replies == [];
    var settled := th.proc == N(BumpProc, v.bumps) && th.err == N(BumpError, v.bumps)
                && th.counted == ExpectedKey(u, th);
    match th.pc
    case Queued => untouched
    case Looking => untouched
    case LoadClient(name) => untouched && ExpectedKey(u, th) == Some(KeyOf(th, name))
    case StoreClient(name) => untouched && ExpectedKey(u, th) == Some(KeyOf(th, name))
    case LoadMethod(name, _) => untouched && ExpectedKey(u, th) == Some(KeyOf(th, name))
    case StoreMethod(name, _) => untouched && ExpectedKey(u, th) == Some(KeyOf(th, name))
    case Counting(name, _) => untouched && ExpectedKey(u, th) == Some(KeyOf(th, name))
    case Settling(bumps, resp) =>
      && th.proc + N(BumpProc, bumps) == N(BumpProc, v.bumps)
      && th.err + N(BumpError, bumps) == N(BumpError, v.bumps)
      && th.counted == ExpectedKey(u, th) && resp == v.resp && th.replies == []
    case Replying(resp) => settled && resp == v.resp && th.replies == []
    case Finished => settled && th.replies == if th.cost >= th.req.timeout then [] else [v.resp]
  }

  lemma SettlingKeepsThread(u: Setup, s: State, th: Thread)
    requires GoodTable(u.instances) && th.pc.Settling? && ThreadInv(u, th)
    ensures ThreadInv(u, Moved(u, s, th))
  {
  }

  lemma MovedKeepsThread(u: Setup, s: State, th: Thread)
    requires GoodTable(u.instances) && InBounds(s, th) && !th.pc.Finished?
    requires ThreadInv(u, th)
    ensures ThreadInv(u, Moved(u, s, th))
  {
    if th.pc.Settling? { SettlingKeepsThread(u, s, th); }
  }

  /** An invocation counts at most once on each side. */
  lemma BumpsAreFew(u: Setup, th: Thread)
    requires GoodTable(u.instances) && ThreadInv(u, th)
    ensures th.proc <= 1 && th.err <= 1 && (th.pc.Queued? ==> th.proc + th.err == 0)
    ensures th.proc + th.err == 2 ==> CountedTwice(u.instances, th.req, u.dec, th.outcome)
    ensures th.pc.Replying? || th.pc.Finished? ==>
              th.proc + th.err == if CountedTwice(u.instances, th.req, u.dec, th.outcome) then 2 else 1
  {
    VerdictBumps(u.instances, th.req, u.dec, th.outcome);
    assert N(BumpProc, [BumpProc]) == 1 && N(BumpError, [BumpProc]) == 0;
    assert N(BumpProc, [BumpError]) == 0 && N(BumpError, [BumpError]) == 1;
    assert [BumpProc, BumpError][1..] == [BumpError];
    assert N(BumpProc, [BumpProc, BumpError]) == 1 && N(BumpError, [BumpProc, BumpError]) == 1;
  }

  // ---------- the whole state ----------

  /** Each flow holds the sum of what the invocations did to it, and what was reported of it is what
      was there at the last sample. */
  ghost predicate StatsInv(s: State) {
    && s.flows.recv.count == Total(Started, s.threads)
    && s.flows.proc.count == Total(Processed, s.threads)
    && s.flows.error.count == Total(Errors, s.threads)
    && s.reported == Three(s.flows.recv.last, s.flows.proc.last, s.flows.error.last)
  }

  /** For each key, all counters together hold the number of invocations that counted under it. */
  ghost predicate CountsInv(s: State) {
    forall key :: Counted(s.counters, key) == Total(Counts(key), s.threads)
  }

  ghost predicate Inv(u: Setup, s: State) {
    && GoodTable(u.instances)
    && HeapInv(s) && StatsInv(s) && CountsInv(s)
    && (forall t :: 0 <= t < |s.threads| ==> ThreadInv(u, s.threads[t]))
  }

  /** The key under which the next action counts, if it counts. */
  function CountsUnder(th: Thread): Option<Key> {
    if th.pc.Counting? then Some(KeyOf(th, th.pc.name)) else None
  }

  lemma SharedCounts(s: State, th: Thread, key: Key)
    requires RefsInv(s, th)
    ensures Counted(Shared(s, th).counters, key)
         == Counted(s.counters, key) + if CountsUnder(th) == Some(key) then 1 else 0
  {
    match th.pc
    case StoreMethod(name, i) =>
      if name !in s.maps[i].entries {
        CountedAfterAppend(s.counters, Counter(0, Key(s.maps[i].service, s.maps[i].client, name), i), key);
      }
    case Counting(_, j) => CountedAfterIncr(s.counters, j, key);
    case _ =>
  }

  lemma MovedCounted(u: Setup, s: State, th: Thread)
    requires GoodTable(u.instances) && InBounds(s, th) && !th.pc.Finished?
    ensures Moved(u, s, th).counted == if th.pc.Counting? then CountsUnder(th) else th.counted
  {
  }

  lemma MovedCounts(u: Setup, s: State, th: Thread, key: Key)
    requires GoodTable(u.instances) && InBounds(s, th) && !th.pc.Finished?
    requires th.pc.Counting? ==> th.counted == None
    ensures Of(Counts(key), Moved(u, s, th))
         == Of(Counts(key), th) + if CountsUnder(th) == Some(key) then 1 else 0
  {
    MovedCounted(u, s, th);
  }

  /** The flows of s' are those of s after one invocation went from th to th'. */
  ghost predicate FlowsFollow(s: State, s': State, th: Thread, th': Thread) {
    && s'.flows.recv.count - Of(Started, th') == s.flows.recv.count - Of(Started, th)
    && s'.flows.proc.count - Of(Processed, th') == s.flows.proc.count - Of(Processed, th)
    && s'.flows.error.count - Of(Errors, th') == s.flows.error.count - Of(Errors, th)
    && s'.reported == s.reported
    && s'.flows.recv.last == s.flows.recv.last
    && s'.flows.proc.last == s.flows.proc.last
    && s'.flows.error.last == s.flows.error.last
  }

  lemma SharedFlows(u: Setup, s: State, th: Thread)
    requires GoodTable(u.instances) && InBounds(s, th) && !th.pc.Finished?
    ensures FlowsFollow(s, Shared(s, th), th, Moved(u, s, th))
  {
  }

  lemma AdvanceKeepsSums(u: Setup, s: State, t: nat)
    requires Inv(u, s) && Enabled(s, Advance(t))
    ensures StatsInv(Next(u, s, Advance(t))) && CountsInv(Next(u, s, Advance(t)))
  {
    var th := s.threads[t];
    assert RefsInv(s, th) && ThreadInv(u, th);
    assert th.pc.Counting? ==> th.counted == None;
    var th' := Moved(u, s, th);
    SharedFlows(u, s, th);
    TotalAfterUpdate(Started, s.threads, t, th');
    TotalAfterUpdate(Processed, s.threads, t, th');
    TotalAfterUpdate(Errors, s.threads, t, th');
    forall key ensures Counted(Shared(s, th).counters, key) == Total(Counts(key), s.threads[t := th']) {
      SharedCounts(s, th, key);
      MovedCounts(u, s, th, key);
      TotalAfterUpdate(Counts(key), s.threads, t, th');
    }
  }

  lemma ArriveKeepsStats(s: State, th: Thread)
    requires StatsInv(s) && th.pc.Queued? && th.proc == 0 && th.err == 0
    ensures StatsInv(s.(threads := s.threads + [th]))
  {
    var s' := s.(threads := s.threads + [th]);
    assert s'.flows == s.flows && s'.reported == s.reported && s'.threads == s.threads + [th];
    TotalAfterAppend(Started, s.threads, th);
    TotalAfterAppend(Processed, s.threads, th);
    TotalAfterAppend(Errors, s.threads, th);
  }

  lemma ArriveKeepsCounts(s: State, th: Thread)
    requires CountsInv(s) && th.counted == None
    ensures CountsInv(s.(threads := s.threads + [th]))
  {
    var s' := s.(threads := s.threads + [th]);
    forall key ensures Counted(s'.counters, key) == Total(Counts(key), s'.threads) {
      TotalAfterAppend(Counts(key), s.threads, th);
    }
  }

  lemma SampledKeepsStats(s: State, w: Which)
    requires StatsInv(s)
    ensures StatsInv(Sampled(s, w))
  {
  }

  lemma NextKeepsThreads(u: Setup, s: State, step: Step)
    requires Inv(u, s) && Enabled(s, step)
    ensures var s' := Next(u, s, step);
      forall t :: 0 <= t < |s'.threads| ==> ThreadInv(u, s'.threads[t])
  {
    if step.Advance? {
      assert ThreadInv(u, s.threads[step.t]);
      MovedKeepsThread(u, s, s.threads[step.t]);
    }
  }

  lemma NextKeepsSums(u: Setup, s: State, step: Step)
    requires Inv(u, s) && Enabled(s, step)
    ensures StatsInv(Next(u, s, step)) && CountsInv(Next(u, s, step))
  {
    match step
    case Arrive(req, outcome, cost) =>
      var th := Thread(req, outcome, cost, Queued, 0, 0, None, []);
      ArriveKeepsStats(s, th);
      ArriveKeepsCounts(s, th);
    case Advance(t) => AdvanceKeepsSums(u, s, t);
    case Evict(_, _) =>
    case Take(w) => SampledKeepsStats(s, w);
  }

  lemma NextKeepsInv(u: Setup, s: State, step: Step)
    requires Inv(u, s) && Enabled(s, step)
    ensures Inv(u, Next(u, s, step))
  {
    NextKeepsHeap(u, s, step);
    NextKeepsThreads(u, s, step);
    NextKeepsSums(u, s, step);
  }

  ghost predicate StepAt(u: Setup, states: seq<State>, steps: seq<Step>, i: nat)
    requires GoodTable(u.instances) && i < |steps| && |states| == |steps| + 1
  {
    Enabled(states[i], steps[i]) && states[i + 1] == Next(u, states[i], steps[i])
  }

  /** A finite run of the engine. */
  ghost predicate Run(u: Setup, states: seq<State>, steps: seq<Step>)
    requires GoodTable(u.instances)
  {
    && |states| == |steps| + 1 && Start(states[0])
    && forall i :: 0 <= i < |steps| ==> StepAt(u, states, steps, i)
  }

  lemma StartHasInv(u: Setup, s: State)
    requires GoodTable(u.instances) && Start(s)
    ensures Inv(u, s)
  {
  }

  lemma StepAtKeepsInv(u: Setup, states: seq<State>, steps: seq<Step>, i: nat)
    requires GoodTable(u.instances) && Run(u, states, steps) && i < |steps| && Inv(u, states[i])
    ensures Inv(u, states[i + 1])
  {
    assert StepAt(u, states, steps, i);
    NextKeepsInv(u, states[i], steps[i]);
  }

  lemma {:induction false} RunKeepsInv(u: Setup, states: seq<State>, steps: seq<Step>, i: nat)
    requires GoodTable(u.instances) && Run(u, states, steps) && i < |states|
    ensures Inv(u, states[i])
  {
    if i == 0 {
      StartHasInv(u, states[0]);
    } else {
      RunKeepsInv(u, states, steps, i - 1);
      StepAtKeepsInv(u, states, steps, i - 1);
    }
  }

  /** An unfinished invocation can always move on, and so can an eviction. */
  lemma NothingIsStuck(u: Setup, states: seq<State>, steps: seq<Step>, i: nat, step: Step)
    requires GoodTable(u.instances) && Run(u, states, steps) && i < |states|
    requires step.Advance? ==> step.t < |states[i].threads| && !states[i].threads[step.t].pc.Finished?
    ensures Enabled(states[i], step)
  {
    RunKeepsInv(u, states, steps, i);
    if step.Advance? { assert RefsInv(states[i], states[i].threads[step.t]); }
  }

  // ---------- statistics ----------

  /** One invocation: once it is received it is either in flight or counted, on one side or on both. */
  lemma OneBalances(th: Thread)
    requires th.proc <= 1 && th.err <= 1 && (th.pc.Queued? ==> th.proc + th.err == 0)
    requires th.pc.Replying? || th.pc.Finished? ==> th.proc + th.err >= 1
    ensures Of(Started, th) + Of(Doubles, th) == Of(Processed, th) + Of(Errors, th) + Of(InFlight, th)
  {
  }

  lemma {:induction false} TotalsBalance(u: Setup, threads: seq<Thread>)
    requires GoodTable(u.instances) && forall t :: 0 <= t < |threads| ==> ThreadInv(u, threads[t])
    ensures Total(Started, threads) + Total(Doubles, threads)
         == Total(Processed, threads) + Total(Errors, threads) + Total(InFlight, threads)
  {
    if threads != [] {
      TotalsBalance(u, threads[..|threads| - 1]);
      BumpsAreFew(u, threads[|threads| - 1]);
      OneBalances(threads[|threads| - 1]);
    }
  }

  lemma {:induction false} NoDoubles(threads: seq<Thread>)
    ensures Total(Doubles, threads) == 0 <==> forall t :: 0 <= t < |threads| ==> threads[t].proc + threads[t].err != 2
  {
    if threads != [] {
      var n := |threads| - 1;
      NoDoubles(threads[..n]);
      assert forall t :: 0 <= t < n ==> threads[..n][t] == threads[t];
      if forall t :: 0 <= t < n ==> threads[..n][t].proc + threads[..n][t].err != 2 {
        assert forall t :: 0 <= t < n ==> threads[t].proc + threads[t].err != 2;
      }
    }
  }

  /** Conservation in every reachable state: received is processed plus failed plus in flight, less
      the invocations counted on both sides; so it balances exactly when there is none of those. */
  lemma ReceivedIsAccountedFor(u: Setup, states: seq<State>, steps: seq<Step>, i: nat)
    requires GoodTable(u.instances) && Run(u, states, steps) && i < |states|
    ensures var s, f := states[i], states[i].flows;
      && f.recv.count == f.proc.count + f.error.count + Total(InFlight, s.threads) - Total(Doubles, s.threads)
      && (f.recv.count == f.proc.count + f.error.count + Total(InFlight, s.threads) <==>
            forall t :: 0 <= t < |s.threads| ==> s.threads[t].proc + s.threads[t].err != 2)
  {
    RunKeepsInv(u, states, steps, i);
    TotalsBalance(u, states[i].threads);
    NoDoubles(states[i].threads);
  }

  /** Every method with a result and an error returns an error that can be nil. */
  ghost predicate NilableErrors(table: Table) {
    forall uri, k | uri in table.services && k in table.services[uri] ::
      |table.services[uri][k].returnType| == 2 ==> table.services[uri][k].returnType[1].nilable
  }

  /** With error types that can be nil the balance holds at all times. */
  lemma NilableErrorsBalance(u: Setup, states: seq<State>, steps: seq<Step>, i: nat)
    requires GoodTable(u.instances) && Run(u, states, steps) && i < |states| && NilableErrors(u.instances)
    ensures var s, f := states[i], states[i].flows;
      f.recv.count == f.proc.count + f.error.count + Total(InFlight, s.threads)
  {
    RunKeepsInv(u, states, steps, i);
    var s := states[i];
    forall t | 0 <= t < |s.threads| ensures s.threads[t].proc + s.threads[t].err != 2 {
      BumpsAreFew(u, s.threads[t]);
      assert !CountedTwice(u.instances, s.threads[t].req, u.dec, s.threads[t].outcome);
    }
    ReceivedIsAccountedFor(u, states, steps, i);
  }

  /** Each finished invocation has called back exactly once, with its verdict, if it took less than
      its timeout, and never otherwise; an unfinished one has not called back. It was counted as
      processed or failed once, or once each exactly in the case described by CountedTwice. */
  lemma FinishedInvocations(u: Setup, states: seq<State>, steps: seq<Step>, i: nat, t: nat)
    requires GoodTable(u.instances) && Run(u, states, steps) && i < |states| && t < |states[i].threads|
    ensures var th := states[i].threads[t];
      && (!th.pc.Finished? ==> th.replies == [])
      && (th.pc.Finished? ==>
            && th.replies == (if th.cost < th.req.timeout
                              then [Judge(u.instances, th.req, u.dec, th.outcome).resp] else [])
            && th.proc + th.err == (if CountedTwice(u.instances, th.req, u.dec, th.outcome) then 2 else 1)
            && th.counted == ExpectedKey(u, th))
  {
    RunKeepsInv(u, states, steps, i);
    BumpsAreFew(u, states[i].threads[t]);
  }

  /** Reported deltas of a counter plus what is not sampled yet are its total. */
  lemma SamplesAddUp(u: Setup, states: seq<State>, steps: seq<Step>, i: nat, w: Which)
    requires GoodTable(u.instances) && Run(u, states, steps) && i < |states|
    ensures states[i].reported.Get(w) + states[i].flows.Get(w).Changes().0 == states[i].flows.Get(w).count
  {
    RunKeepsInv(u, states, steps, i);
  }

  // ---------- counters ----------

  predicate IsLive(s: State, j: nat)
    requires j < |s.counters|
  {
    s.counters[j].home < |s.maps| && !s.maps[s.counters[j].home].evicted
  }

  /** The counts for a key in counters that lookups still reach, or that they do not. */
  function CountedWhere(s: State, key: Key, live: bool, n: nat): nat
    requires n <= |s.counters|
  {
    if n == 0 then 0
    else
      CountedWhere(s, key, live, n - 1)
        + if s.counters[n - 1].key == key && IsLive(s, n - 1) == live then s.counters[n - 1].count else 0
  }

  lemma {:induction false} CountedSplits(s: State, key: Key, n: nat)
    requires n <= |s.counters|
    ensures CountedWhere(s, key, true, n) + CountedWhere(s, key, false, n) == Counted(s.counters[..n], key)
  {
    if n > 0 {
      CountedSplits(s, key, n - 1);
      assert s.counters[..n][..n - 1] == s.counters[..n - 1];
    }
  }

  /** The counter a lookup of this key would reach. */
  function LiveCounter(s: State, key: Key): Option<nat> {
    var k := (key.service, key.client);
    if k in s.table && s.table[k] < |s.maps| && key.name in s.maps[s.table[k]].entries
    then Some(s.maps[s.table[k]].entries[key.name]) else None
  }

  function LiveCount(s: State, key: Key): nat {
    match LiveCounter(s, key)
    case Some(j) => if j < |s.counters| then s.counters[j].count else 0
    case None => 0
  }

  /** The only live counter of a key is the one a lookup reaches. */
  lemma LiveIsReached(s: State, j: nat)
    requires HeapInv(s) && j < |s.counters| && IsLive(s, j)
    ensures LiveCounter(s, s.counters[j].key) == Some(j)
  {
    var i := s.counters[j].home;
    assert s.maps[i].entries[s.counters[j].key.name] == j;
  }

  lemma ReachedIsLive(s: State, key: Key)
    requires HeapInv(s) && LiveCounter(s, key).Some?
    ensures LiveCounter(s, key).value < |s.counters|
    ensures IsLive(s, LiveCounter(s, key).value) && s.counters[LiveCounter(s, key).value].key == key
  {
  }

  /** A counter adds to the live sum of a key exactly when it is the one a lookup reaches. */
  lemma LiveTerm(s: State, key: Key, j: nat)
    requires HeapInv(s) && j < |s.counters|
    ensures s.counters[j].key == key && IsLive(s, j) <==> LiveCounter(s, key) == Some(j)
  {
    if s.counters[j].key == key && IsLive(s, j) { LiveIsReached(s, j); }
    if LiveCounter(s, key) == Some(j) { ReachedIsLive(s, key); }
  }

  /** LiveTerm for every counter. */
  ghost predicate LiveTerms(s: State, key: Key) {
    forall j | 0 <= j < |s.counters| :: s.counters[j].key == key && IsLive(s, j) <==> LiveCounter(s, key) == Some(j)
  }

  lemma {:induction false} LiveSum(s: State, key: Key, n: nat)
    requires LiveTerms(s, key) && n <= |s.counters|
    ensures CountedWhere(s, key, true, n)
         == if LiveCounter(s, key).Some? && LiveCounter(s, key).value < n then LiveCount(s, key) else 0
  {
    if n > 0 {
      LiveSum(s, key, n - 1);
      assert s.counters[n - 1].key == key && IsLive(s, n - 1) <==> LiveCounter(s, key) == Some(n - 1);
    }
  }

  /** No table of this service and client has been evicted. */
  ghost predicate NeverEvicted(s: State, key: Key) {
    forall i :: 0 <= i < |s.maps| && s.maps[i].service == key.service && s.maps[i].client == key.client ==>
      !s.maps[i].evicted
  }

  ghost predicate AtMostOneLive(s: State) {
    forall j, k | 0 <= j < |s.counters| && 0 <= k < |s.counters| && IsLive(s, j) && IsLive(s, k) ::
      s.counters[j].key == s.counters[k].key ==> j == k
  }

  lemma NeverEvictedIsLive(s: State, key: Key, j: nat)
    requires HeapInv(s) && NeverEvicted(s, key) && j < |s.counters| && s.counters[j].key == key
    ensures IsLive(s, j)
  {
    var c := s.counters[j];
    assert s.maps[c.home].entries[c.key.name] == j;
  }

  lemma {:induction false} NoneEvicted(s: State, key: Key, n: nat)
    requires n <= |s.counters|
    requires forall j | 0 <= j < |s.counters| :: s.counters[j].key == key ==> IsLive(s, j)
    ensures CountedWhere(s, key, false, n) == 0
  {
    if n > 0 { NoneEvicted(s, key, n - 1); }
  }

  lemma OnlyOneIsLive(s: State)
    requires HeapInv(s)
    ensures AtMostOneLive(s)
  {
    forall j, k | 0 <= j < |s.counters| && 0 <= k < |s.counters| && s.counters[j].key == s.counters[k].key
      && IsLive(s, j) && IsLive(s, k) ensures j == k {
      LiveIsReached(s, j);
      LiveIsReached(s, k);
    }
  }

  /** The live counter of a key shows all its counts that are not in evicted tables. */
  lemma LiveCountIsLiveSum(s: State, key: Key)
    requires HeapInv(s)
    ensures LiveCount(s, key) + CountedWhere(s, key, false, |s.counters|) == Counted(s.counters, key)
  {
    var n := |s.counters|;
    CountedSplits(s, key, n);
    assert s.counters[..n] == s.counters;
    forall j | 0 <= j < n ensures s.counters[j].key == key && IsLive(s, j) <==> LiveCounter(s, key) == Some(j) {
      LiveTerm(s, key, j);
    }
    LiveSum(s, key, n);
    if LiveCounter(s, key).Some? { ReachedIsLive(s, key); }
  }

  lemma NoneIsEvicted(s: State, key: Key)
    requires HeapInv(s) && NeverEvicted(s, key)
    ensures CountedWhere(s, key, false, |s.counters|) == 0
  {
    var n := |s.counters|;
    forall j | 0 <= j < n && s.counters[j].key == key ensures IsLive(s, j) { NeverEvictedIsLive(s, key, j); }
    NoneEvicted(s, key, n);
  }

  /** Concurrent counting loses nothing. In every reachable state of every interleaving there is at
      most one live counter for a service, client and method; what it shows plus what was counted in
      evicted tables is the number of invocations that counted under that key; and if no table of
      the client was evicted, the live counter alone shows that number. */
  lemma CountingLosesNothing(u: Setup, states: seq<State>, steps: seq<Step>, i: nat, key: Key)
    requires GoodTable(u.instances) && Run(u, states, steps) && i < |states|
    ensures AtMostOneLive(states[i])
    ensures LiveCount(states[i], key) + CountedWhere(states[i], key, false, |states[i].counters|)
         == Total(Counts(key), states[i].threads)
    ensures NeverEvicted(states[i], key) ==> LiveCount(states[i], key) == Total(Counts(key), states[i].threads)
  {
    RunKeepsInv(u, states, steps, i);
    OnlyOneIsLive(states[i]);
    LiveCountIsLiveSum(states[i], key);
    if NeverEvicted(states[i], key) { NoneIsEvicted(states[i], key); }
  }

  // ---------- eviction and sampling, one step at a time ----------

  /** Evicting a client takes its counters, and those only, out of reach, and changes no count. */
  lemma EvictIs(u: Setup, states: seq<State>, steps: seq<Step>, i: nat, key: Key)
    requires GoodTable(u.instances) && Run(u, states, steps) && i < |steps| && steps[i].Evict?
    ensures states[i + 1].counters == states[i].counters && states[i + 1].threads == states[i].threads
    ensures LiveCounter(states[i + 1], key)
         == if key.service == steps[i].service && key.client == steps[i].client then None
            else LiveCounter(states[i], key)
  {
    RunKeepsInv(u, states, steps, i);
    assert StepAt(u, states, steps, i);
    EvictedReach(states[i], steps[i].service, steps[i].client, key);
  }

  lemma EvictedReach(s: State, service: string, client: string, key: Key)
    requires HeapInv(s)
    ensures var s' := Evicted(s, (service, client));
      && s'.counters == s.counters && s'.threads == s.threads
      && LiveCounter(s', key) == if key.service == service && key.client == client then None else LiveCounter(s, key)
  {
    var k := (key.service, key.client);
    assert k == (service, client) <==> key.service == service && key.client == client;
  }

  /** A sample reports everything that was added to its counter since the last one, and touches no
      other counter and no count. */
  lemma TakeIs(u: Setup, states: seq<State>, steps: seq<Step>, i: nat, w: Which)
    requires GoodTable(u.instances) && Run(u, states, steps) && i < |steps| && steps[i].Take?
    ensures states[i + 1].flows.Get(w).count == states[i].flows.Get(w).count
    ensures w == steps[i].which ==>
      && states[i + 1].flows.Get(w).Changes().0 == 0
      && states[i + 1].reported.Get(w) == states[i + 1].flows.Get(w).count
    ensures w != steps[i].which ==>
      states[i + 1].flows.Get(w) == states[i].flows.Get(w) && states[i + 1].reported.Get(w) == states[i].reported.Get(w)
  {
    assert StepAt(u, states, steps, i);
    SamplesAddUp(u, states, steps, i, w);
  }

  /** The counter under which an invocation has counted when it is finished: the one of its service, its
      client and the declared name of the method, if the method was found. */
  lemma FinishedKey(u: Setup, states: seq<State>, steps: seq<Step>, i: nat, t: nat)
    requires GoodTable(u.instances) && Run(u, states, steps) && i < |states|
    requires t < |states[i].threads| && states[i].threads[t].pc.Finished?
    ensures var th, services := states[i].threads[t], u.instances.services;
      var uri, name := th.req.serviceUri, u.instances.lower(th.req.methodName);
      th.counted == if uri in services && name in services[uri]
                    then Some(Key(uri, th.req.source, services[uri][name].name)) else None
  {
    FinishedInvocations(u, states, steps, i, t);
  }
}
