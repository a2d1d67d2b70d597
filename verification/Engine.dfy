/** Any number of invocations in flight at once, interleaved with the eviction of client entries and
    the sampling of the counters (proxy.go, application.go, stat.go). The actions on shared memory
    are atomic: adding to a counter, sync.Map Load, LoadOrStore and Delete. */
module Engine {
  import opened Wrappers
  import opened Dispatch
  import opened Stats
  import opened Invocation

  /** Whom a counter counts: service, client and method. */
  datatype Key = Key(service: string, client: string, name: string)

  /** A per-client table of counters, referred to by its index. The labels service, client and
      evicted are for the proof only; no step reads them. */
  datatype FlowMap = FlowMap(entries: map<string, nat>, service: string, client: string, evicted: bool)

  /** A counter, referred to by its index. The labels key and home, the table it was stored in, are
      for the proof only. */
  datatype Counter = Counter(count: nat, key: Key, home: nat)

  /** Where an invocation stands. */
  datatype Pc =
    | Queued
    | Looking
    | LoadClient(name: string)
    | StoreClient(name: string)
    | LoadMethod(name: string, flows: nat)
    | StoreMethod(name: string, flows: nat)
    | Counting(name: string, counter: nat)
    | Settling(bumps: seq<Bump>, resp: Resp)
    | Replying(resp: Resp)
    | Finished

  /** proc, err, counted and replies record what this invocation has done so far. */
  datatype Thread = Thread(
    req: Request, outcome: Outcome, cost: int, pc: Pc,
    proc: nat, err: nat, counted: Option<Key>, replies: seq<Resp>)

  datatype Which = Recv | Proc | Error

  /** One thing for each of the three counters. */
  datatype Three<T> = Three(recv: T, proc: T, error: T) {
    function Get(w: Which): T {
      match w
      case Recv => recv
      case Proc => proc
      case Error => error
    }

    function Set(w: Which, v: T): Three<T> {
      match w
      case Recv => this.(recv := v)
      case Proc => this.(proc := v)
      case Error => this.(error := v)
    }
  }

  datatype State = State(
    table: map<(string, string), nat>,
    maps: seq<FlowMap>,
    counters: seq<Counter>,
    threads: seq<Thread>,
    flows: Three<Flow>,
    reported: Three<int>)

  /** What does not change: the dispatch table and the decoder. */
  datatype Setup = Setup(instances: Table, dec: Decoder)

  datatype Step =
    | Arrive(req: Request, outcome: Outcome, cost: int)
    | Advance(t: nat)
    | Evict(service: string, client: string)
    | Take(which: Which)

  ghost predicate Start(s: State) {
    && s.table == map[] && s.maps == [] && s.counters == [] && s.threads == []
    && s.flows == Three(ZERO, ZERO, ZERO) && s.reported == Three(0, 0, 0)
  }

  function VerdictOf(u: Setup, th: Thread): Verdict
    requires GoodTable(u.instances)
  {
    Judge(u.instances, th.req, u.dec, th.outcome)
  }

  function ClientOf(th: Thread): (string, string) { (th.req.serviceUri, th.req.source) }

  function KeyOf(th: Thread, name: string): Key { Key(th.req.serviceUri, th.req.source, name) }

  /** References an invocation holds are to objects that exist, with the labels it asked for. */
  predicate RefsInv(s: State, th: Thread) {
    match th.pc
    case LoadMethod(_, i) => i < |s.maps| && (s.maps[i].service, s.maps[i].client) == ClientOf(th)
    case StoreMethod(_, i) => i < |s.maps| && (s.maps[i].service, s.maps[i].client) == ClientOf(th)
    case Counting(name, j) => j < |s.counters| && s.counters[j].key == KeyOf(th, name)
    case _ => true
  }

  /** The client tables that lookups reach are there, under their labels, and not evicted. */
  ghost predicate ReachedInv(s: State) {
    forall k :: k in s.table ==>
      && s.table[k] < |s.maps| && !s.maps[s.table[k]].evicted
      && (s.maps[s.table[k]].service, s.maps[s.table[k]].client) == k
  }

  /** A client table that is not evicted is the one lookups reach under its labels. */
  ghost predicate UniqueInv(s: State) {
    forall i :: 0 <= i < |s.maps| && !s.maps[i].evicted ==>
      && (s.maps[i].service, s.maps[i].client) in s.table
      && s.table[(s.maps[i].service, s.maps[i].client)] == i
  }

  /** The counters in a client table are there, under their labels. */
  ghost predicate EntriesInv(s: State) {
    forall i, n :: 0 <= i < |s.maps| && n in s.maps[i].entries ==>
      && s.maps[i].entries[n] < |s.counters|
      && s.counters[s.maps[i].entries[n]].home == i
      && s.counters[s.maps[i].entries[n]].key == Key(s.maps[i].service, s.maps[i].client, n)
  }

  /** Every counter is in its client table under its name. */
  ghost predicate HomesInv(s: State) {
    forall j :: 0 <= j < |s.counters| ==>
      && s.counters[j].home < |s.maps|
      && s.counters[j].key.name in s.maps[s.counters[j].home].entries
      && s.maps[s.counters[j].home].entries[s.counters[j].key.name] == j
  }

  ghost predicate TablesInv(s: State) {
    ReachedInv(s) && UniqueInv(s) && EntriesInv(s) && HomesInv(s)
  }

  ghost predicate HeapInv(s: State) {
    TablesInv(s) && forall t :: 0 <= t < |s.threads| ==> RefsInv(s, s.threads[t])
  }

  /** The references an invocation is about to follow exist. */
  predicate InBounds(s: State, th: Thread) {
    match th.pc
    case LoadMethod(_, i) => i < |s.maps|
    case StoreMethod(_, i) => i < |s.maps|
    case Counting(_, j) => j < |s.counters|
    case _ => true
  }

  predicate Enabled(s: State, step: Step) {
    match step
    case Advance(t) => t < |s.threads| && !s.threads[t].pc.Finished? && InBounds(s, s.threads[t])
    case Evict(service, client) => (service, client) in s.table ==> s.table[(service, client)] < |s.maps|
    case _ => true
  }

  /** The table after LoadOrStore of a fresh per-client map. */
  function WithClient(s: State, k: (string, string)): State {
    if k in s.table then s
    else s.(table := s.table[k := |s.maps|], maps := s.maps + [FlowMap(map[], k.0, k.1, false)])
  }

  /** The heap after LoadOrStore of a fresh counter. */
  function WithCounter(s: State, i: nat, name: string): State
    requires i < |s.maps|
  {
    if name in s.maps[i].entries then s
    else
      var m := s.maps[i];
      s.(maps := s.maps[i := m.(entries := m.entries[name := |s.counters|])],
         counters := s.counters + [Counter(0, Key(m.service, m.client, name), i)])
  }

  function Bumped(s: State, w: Which): State {
    s.(flows := s.flows.Set(w, s.flows.Get(w).Incr(1)))
  }

  /** What the next action of an invocation does to shared memory. */
  function Shared(s: State, th: Thread): State
    requires InBounds(s, th)
  {
    match th.pc
    case Queued => Bumped(s, Recv)
    case StoreClient(_) => WithClient(s, ClientOf(th))
    case StoreMethod(name, i) => WithCounter(s, i, name)
    case Counting(_, j) => s.(counters := s.counters[j := s.counters[j].(count := s.counters[j].count + 1)])
    case Settling(bumps, _) =>
      if bumps == [] then s else Bumped(s, if bumps[0] == BumpProc then Proc else Error)
    case _ => s
  }

  /** What becomes of the invocation. Loads read s, stores also see what they put there. */
  function Moved(u: Setup, s: State, th: Thread): Thread
    requires GoodTable(u.instances) && InBounds(s, th) && !th.pc.Finished?
  {
    var settle := Settling(VerdictOf(u, th).bumps, VerdictOf(u, th).resp);
    match th.pc
    case Queued => th.(pc := Looking)
    case Looking =>
      (match Lookup(u.instances, th.req.serviceUri, th.req.methodName)
       case Reached(m) => th.(pc := LoadClient(m.name))
       case _ => th.(pc := settle))
    case LoadClient(name) =>
      th.(pc := if ClientOf(th) in s.table then LoadMethod(name, s.table[ClientOf(th)]) else StoreClient(name))
    case StoreClient(name) => th.(pc := LoadMethod(name, Shared(s, th).table[ClientOf(th)]))
    case LoadMethod(name, i) =>
      th.(pc := if name in s.maps[i].entries then Counting(name, s.maps[i].entries[name]) else StoreMethod(name, i))
    case StoreMethod(name, i) => th.(pc := Counting(name, Shared(s, th).maps[i].entries[name]))
    case Counting(name, _) => th.(pc := settle, counted := Some(KeyOf(th, name)))
    case Settling(bumps, resp) =>
      if bumps == [] then th.(pc := Replying(resp))
      else if bumps[0] == BumpProc then th.(pc := Settling(bumps[1..], resp), proc := th.proc + 1)
      else th.(pc := Settling(bumps[1..], resp), err := th.err + 1)
    case Replying(resp) =>
      th.(pc := Finished, replies := if th.cost >= th.req.timeout then [] else [resp])
  }

  function Next(u: Setup, s: State, step: Step): State
    requires GoodTable(u.instances) && Enabled(s, step)
  {
    match step
    case Arrive(req, outcome, cost) =>
      s.(threads := s.threads + [Thread(req, outcome, cost, Queued, 0, 0, None, [])])
    case Advance(t) =>
      Shared(s, s.threads[t]).(threads := s.threads[t := Moved(u, s, s.threads[t])])
    case Evict(service, client) => Evicted(s, (service, client))
    case Take(w) => Sampled(s, w)
  }

  /** The ticker reads the changes of one counter. */
  function Sampled(s: State, w: Which): State {
    var (delta, flow) := s.flows.Get(w).Changes();
    s.(flows := s.flows.Set(w, flow), reported := s.reported.Set(w, s.reported.Get(w) + delta))
  }

  /** The heap after the deletion of a client's entry. */
  function Evicted(s: State, k: (string, string)): State
    requires k in s.table ==> s.table[k] < |s.maps|
  {
    if k in s.table then
      s.(table := s.table - {k}, maps := s.maps[s.table[k] := s.maps[s.table[k]].(evicted := true)])
    else s
  }

  // ---------- sums over the invocations ----------

  /** What can be counted about one invocation. */
  datatype Measure = Started | Processed | Errors | InFlight | Doubles | Counts(key: Key)

  function Of(m: Measure, th: Thread): nat {
    match m
    case Started => if th.pc.Queued? then 0 else 1
    case Processed => th.proc
    case Errors => th.err
    case InFlight => if th.pc.Queued? || th.pc.Replying? || th.pc.Finished? || th.proc + th.err > 0 then 0 else 1
    case Doubles => if th.proc + th.err == 2 then 1 else 0
    case Counts(key) => if th.counted == Some(key) then 1 else 0
  }

  function Total(m: Measure, threads: seq<Thread>): nat {
    if threads == [] then 0
    else Total(m, threads[..|threads| - 1]) + Of(m, threads[|threads| - 1])
  }

  lemma {:induction false} TotalAfterUpdate(m: Measure, threads: seq<Thread>, t: nat, th: Thread)
    requires t < |threads|
    ensures Total(m, threads[t := th]) == Total(m, threads) - Of(m, threads[t]) + Of(m, th)
  {
    var n := |threads| - 1;
    if t < n {
      assert threads[t := th][..n] == threads[..n][t := th];
      TotalAfterUpdate(m, threads[..n], t, th);
    } else {
      assert threads[t := th][..n] == threads[..n];
    }
  }

  lemma TotalAfterAppend(m: Measure, threads: seq<Thread>, th: Thread)
    ensures Total(m, threads + [th]) == Total(m, threads) + Of(m, th)
  {
    assert (threads + [th])[..|threads|] == threads;
  }

  // ---------- sums over the counters ----------

  /** All counts for a key, in tables that are evicted or not. */
  function Counted(counters: seq<Counter>, key: Key): nat {
    if counters == [] then 0
    else
      var c := counters[|counters| - 1];
      Counted(counters[..|counters| - 1], key) + if c.key == key then c.count else 0
  }

  lemma {:induction false} CountedAfterIncr(counters: seq<Counter>, j: nat, key: Key)
    requires j < |counters|
    ensures Counted(counters[j := counters[j].(count := counters[j].count + 1)], key)
         == Counted(counters, key) + if counters[j].key == key then 1 else 0
  {
    var n := |counters| - 1;
    var c := counters[j].(count := counters[j].count + 1);
    if j < n {
      assert counters[j := c][..n] == counters[..n][j := c];
      CountedAfterIncr(counters[..n], j, key);
    } else {
      assert counters[j := c][..n] == counters[..n];
    }
  }

  lemma CountedAfterAppend(counters: seq<Counter>, c: Counter, key: Key)
    ensures Counted(counters + [c], key) == Counted(counters, key) + if c.key == key then c.count else 0
  {
    assert (counters + [c])[..|counters|] == counters;
  }
}
