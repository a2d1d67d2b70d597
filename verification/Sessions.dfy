/** Any number of server sessions registering, withdrawing and expiring in any interleaving
    (registry_zk.go). Delete and create of a registration are separate steps. */
module Sessions {
  import opened Wrappers
  import opened ServiceUri
  import opened ZkTree
  import opened Publishing
  import D = Discovery

  /** Where a session stands with its registration or withdrawal. */
  datatype Proc = Ready | Deleting(job: Job) | Creating(job: Job) | Withdrawing(address: string) | Crashed

  datatype State = State(tree: Tree, procs: map<nat, Proc>)

  datatype Step =
    | Connect(s: nat)
    | MakeNode(path: string)
    | BeginRegister(s: nat, job: Job)
    | DeleteOld(s: nat)
    | CreateNew(s: nat)
    | BeginWithdraw(s: nat, address: string)
    | DoWithdraw(s: nat)
    | Expire(s: nat)   // also the close of the connection when the creation of a path fails

  /** Address nodes are named host:port; service nodes and their ancestors are not. */
  predicate HostName(name: string) { ':' in name }

  predicate GoodJob(job: Job) {
    && Proper(job) && Nameable(job.address) && NoSpace(job.address)
    && HostName(Base(job.address)) && !HostName(Base(job.servicePath))
    && job.meta.hostPort == Base(job.address)
  }

  predicate Enabled(st: State, step: Step) {
    match step
    case Connect(s) => s !in st.procs
    case MakeNode(path) => Create(st.tree, path, PERSISTENT).Ok? && !HostName(Base(path)) && NoSpace(path)
    case BeginRegister(s, job) =>
      s in st.procs && st.procs[s].Ready? && GoodJob(job) && job.servicePath in st.tree
    case DeleteOld(s) => s in st.procs && st.procs[s].Deleting?
    case CreateNew(s) => s in st.procs && st.procs[s].Creating?
    case BeginWithdraw(s, address) =>
      s in st.procs && st.procs[s].Ready? && HostName(Base(address)) && address in st.tree
    case DoWithdraw(s) => s in st.procs && st.procs[s].Withdrawing?
    case Expire(s) => s in st.procs
  }

  /** The address a deleting step is about. */
  function Target(p: Proc): string {
    match p
    case Deleting(job) => job.address
    case Creating(job) => job.address
    case Withdrawing(address) => address
    case _ => "/"
  }

  /** The tree after a create whose failure makes the server panic. */
  function Created(t: Tree, job: Job, s: nat): Tree {
    match Create(t, job.address, AddressNode(job, s))
    case Ok(t') => t'
    case Err(_) => t
  }

  function TreeAfter(st: State, step: Step): Tree
    requires Enabled(st, step)
  {
    match step
    case MakeNode(path) => st.tree[path := PERSISTENT]
    case DeleteOld(s) => Cleared(st.tree, Target(st.procs[s]))
    case CreateNew(s) => Created(st.tree, st.procs[s].job, s)
    case DoWithdraw(s) => Cleared(st.tree, Target(st.procs[s]))
    case Expire(s) => CloseSession(st.tree, s)
    case _ => st.tree
  }

  function ProcsAfter(st: State, step: Step): map<nat, Proc>
    requires Enabled(st, step)
  {
    match step
    case Connect(s) => st.procs[s := Ready]
    case MakeNode(path) => st.procs
    case BeginRegister(s, job) => st.procs[s := Deleting(job)]
    case DeleteOld(s) => st.procs[s := Creating(st.procs[s].job)]
    case CreateNew(s) =>
      st.procs[s := if Create(st.tree, st.procs[s].job.address, AddressNode(st.procs[s].job, s)).Ok?
                    then Ready else Crashed]
    case BeginWithdraw(s, address) => st.procs[s := Withdrawing(address)]
    case DoWithdraw(s) => st.procs[s := Ready]
    case Expire(s) => st.procs - {s}
  }

  function Next(st: State, step: Step): State
    requires Enabled(st, step)
  {
    State(TreeAfter(st, step), ProcsAfter(st, step))
  }

  // ---------- invariants ----------

  /** The tree part of the invariant. */
  ghost predicate TreeInv(st: State) { GoodTree(st.tree, st.procs.Keys) }

  ghost predicate ProcInv(st: State, s: nat)
    requires s in st.procs
  {
    var p := st.procs[s];
    && (p.Deleting? || p.Creating? ==> GoodJob(p.job) && p.job.servicePath in st.tree)
    && (p.Withdrawing? ==> HostName(Base(p.address)))
  }

  ghost predicate Inv(st: State) {
    TreeInv(st) && forall s :: s in st.procs ==> ProcInv(st, s)
  }

  ghost predicate Start(st: State) { TreeInv(st) && forall s :: s in st.procs ==> st.procs[s] == Ready }

  lemma ClearedKeepsOthers(t: Tree, a: string, q: string)
    requires WellFormed(t) && q in t && (q == "/" || q != a)
    ensures q in Cleared(t, a) && Cleared(t, a)[q] == t[q]
  {
    ClearedLaw(t, a);
  }

  lemma CreatedKeepsAll(t: Tree, job: Job, s: nat, q: string)
    requires q in t
    ensures q in Created(t, job, s) && Created(t, job, s)[q] == t[q]
  {
  }

  /** The node q is not the target of a delete. */
  predicate Spares(st: State, step: Step, q: string)
    requires Enabled(st, step)
  {
    match step
    case DeleteOld(s) => q != Target(st.procs[s])
    case DoWithdraw(s) => q != Target(st.procs[s])
    case Expire(s) => q in st.tree ==> st.tree[q].owner != Some(s)
    case _ => true
  }

  lemma SparedNodesStay(st: State, step: Step, q: string)
    requires WellFormed(st.tree) && Enabled(st, step) && q in st.tree && (q == "/" || Spares(st, step, q))
    ensures q in TreeAfter(st, step) && TreeAfter(st, step)[q] == st.tree[q]
  {
    match step
    case DeleteOld(s) => ClearedKeepsOthers(st.tree, Target(st.procs[s]), q);
    case DoWithdraw(s) => ClearedKeepsOthers(st.tree, Target(st.procs[s]), q);
    case CreateNew(s) => CreatedKeepsAll(st.tree, st.procs[s].job, s, q);
    case _ =>
  }

  lemma TargetsAreHosts(st: State, s: nat)
    requires Inv(st) && s in st.procs && (st.procs[s].Deleting? || st.procs[s].Withdrawing?)
    ensures HostName(Base(Target(st.procs[s])))
  {
    assert ProcInv(st, s);
  }

  /** Service nodes are there for good. */
  lemma PersistentNodesStay(st: State, step: Step, q: string)
    requires Inv(st) && Enabled(st, step) && q in st.tree && st.tree[q].owner.None?
    ensures q in Next(st, step).tree && Next(st, step).tree[q] == st.tree[q]
  {
    assert q == "/" || !HostName(Base(q));
    if step.DeleteOld? || step.DoWithdraw? { TargetsAreHosts(st, step.s); }
    SparedNodesStay(st, step, q);
  }

  /** Exactly the address nodes are ephemeral, each describes the host it is named after, and its
      owner is alive. Well-formedness says in particular that every node has version 0. */
  ghost predicate GoodTree(t: Tree, live: set<nat>) {
    && WellFormed(t)
    && NamedAfterHosts(t)
    && (forall q :: q in t ==> NoSpace(q))
    && (forall q :: q in t ==> (t[q].owner.Some? <==> q != "/" && HostName(Base(q))))
    && (forall q :: q in t && t[q].owner.Some? ==> t[q].owner.value in live)
  }

  lemma ClearKeepsGoodTree(t: Tree, live: set<nat>, a: string)
    requires GoodTree(t, live)
    ensures GoodTree(Cleared(t, a), live)
  {
    ClearedLaw(t, a);
  }

  lemma CreateKeepsGoodTree(t: Tree, live: set<nat>, job: Job, s: nat)
    requires GoodTree(t, live) && GoodJob(job) && s in live
    ensures GoodTree(Created(t, job, s), live)
  {
    var r := Create(t, job.address, AddressNode(job, s));
    if r.Ok? {
      CreateKeepsWellFormed(t, job.address, AddressNode(job, s));
      assert r.value == t[job.address := AddressNode(job, s)];
      forall q | q in r.value
        ensures NoSpace(q) && (r.value[q].owner.Some? <==> q != "/" && HostName(Base(q)))
        ensures r.value[q].data.Meta? ==> r.value[q].data.meta.hostPort == Base(q)
        ensures r.value[q].owner.Some? ==> r.value[q].owner.value in live {
        if q != job.address { assert q in t && r.value[q] == t[q]; }
      }
    }
  }

  lemma NextKeepsTreeInv(st: State, step: Step)
    requires Inv(st) && Enabled(st, step)
    ensures TreeInv(Next(st, step))
  {
    match step
    case MakeNode(path) => CreateKeepsWellFormed(st.tree, path, PERSISTENT);
    case DeleteOld(s) => ClearKeepsGoodTree(st.tree, st.procs.Keys, Target(st.procs[s]));
    case DoWithdraw(s) => ClearKeepsGoodTree(st.tree, st.procs.Keys, Target(st.procs[s]));
    case CreateNew(s) =>
      assert ProcInv(st, s);
      CreateKeepsGoodTree(st.tree, st.procs.Keys, st.procs[s].job, s);
    case Expire(s) => CloseKeepsWellFormed(st.tree, s);
    case _ =>
  }

  lemma ServiceNodeIsPersistent(st: State, job: Job)
    requires TreeInv(st) && GoodJob(job) && job.servicePath in st.tree
    ensures st.tree[job.servicePath].owner.None?
  {
  }

  /** A session that is creating was deleting or creating the same job before. */
  lemma StageMoves(st: State, step: Step, r: nat)
    requires Enabled(st, step) && r in ProcsAfter(st, step)
    ensures var p' := ProcsAfter(st, step)[r];
      || p' == Ready || p' == Crashed
      || (r in st.procs && p' == st.procs[r])
      || (r in st.procs && st.procs[r].Deleting? && p' == Creating(st.procs[r].job))
      || (p'.Withdrawing? && HostName(Base(p'.address)))
      || (p'.Deleting? && GoodJob(p'.job) && p'.job.servicePath in st.tree)
  {
  }

  lemma NextKeepsProcInv(st: State, step: Step, r: nat)
    requires Inv(st) && Enabled(st, step) && r in Next(st, step).procs
    ensures ProcInv(Next(st, step), r)
  {
    StageMoves(st, step, r);
    var p' := Next(st, step).procs[r];
    if p'.Deleting? || p'.Creating? {
      if r in st.procs { assert ProcInv(st, r); }
      ServiceNodeIsPersistent(st, p'.job);
      PersistentNodesStay(st, step, p'.job.servicePath);
    } else if p'.Withdrawing? && r in st.procs {
      assert ProcInv(st, r);
    }
  }

  lemma NextKeepsInv(st: State, step: Step)
    requires Inv(st) && Enabled(st, step)
    ensures Inv(Next(st, step))
  {
    NextKeepsTreeInv(st, step);
    forall r | r in Next(st, step).procs ensures ProcInv(Next(st, step), r) { NextKeepsProcInv(st, step, r); }
  }

  /** A run: every step is enabled where it happens. */
  ghost predicate Runs(st: State, steps: seq<Step>)
    decreases |steps|
  {
    steps == [] || (Enabled(st, steps[0]) && Runs(Next(st, steps[0]), steps[1..]))
  }

  ghost function After(st: State, steps: seq<Step>): State
    requires Runs(st, steps)
    decreases |steps|
  {
    if steps == [] then st else After(Next(st, steps[0]), steps[1..])
  }

  /** Every service node of t is in t' unchanged. */
  ghost predicate ServicesKept(t: Tree, t': Tree) {
    forall q :: q in t && t[q].owner.None? ==> q in t' && t'[q] == t[q]
  }

  lemma NextKeepsServices(st: State, step: Step)
    requires Inv(st) && Enabled(st, step)
    ensures ServicesKept(st.tree, Next(st, step).tree)
  {
    forall q | q in st.tree && st.tree[q].owner.None?
      ensures q in Next(st, step).tree && Next(st, step).tree[q] == st.tree[q] {
      PersistentNodesStay(st, step, q);
    }
  }

  /** Over every run: exactly the address nodes are ephemeral and owned by live sessions, every node
      has version 0, every description sits at the node named after its host, and no service node
      is ever removed or rewritten. */
  lemma {:induction false} RunKeepsInv(st: State, steps: seq<Step>)
    requires Inv(st) && Runs(st, steps)
    ensures Inv(After(st, steps))
    ensures ServicesKept(st.tree, After(st, steps).tree)
    decreases |steps|
  {
    if steps != [] {
      NextKeepsInv(st, steps[0]);
      NextKeepsServices(st, steps[0]);
      RunKeepsInv(Next(st, steps[0]), steps[1..]);
    }
  }

  lemma StartHasInv(st: State)
    requires Start(st)
    ensures Inv(st)
  {
  }

  /** The same from the start: what every reachable state satisfies. */
  lemma ReachableStates(st: State, steps: seq<Step>)
    requires Start(st) && Runs(st, steps)
    ensures Inv(After(st, steps)) && ServicesKept(st.tree, After(st, steps).tree)
  {
    StartHasInv(st);
    RunKeepsInv(st, steps);
  }

  // ---------- surviving the old session ----------

  /** A step by which somebody interferes with the registration of address a by session s: its
      own expiry, a delete of that address, or another session's creation of it. The expiry of any
      other session is not among them. */
  predicate Disturbs(st: State, step: Step, s: nat, a: string)
    requires Enabled(st, step)
  {
    match step
    case Expire(r) => r == s
    case DeleteOld(r) => Target(st.procs[r]) == a
    case DoWithdraw(r) => Target(st.procs[r]) == a
    case CreateNew(r) => r != s && Target(st.procs[r]) == a
    case _ => false
  }

  ghost predicate Undisturbed(st: State, steps: seq<Step>, s: nat, a: string)
    requires Runs(st, steps)
    decreases |steps|
  {
    steps == [] || (!Disturbs(st, steps[0], s, a) && Undisturbed(Next(st, steps[0]), steps[1..], s, a))
  }

  predicate Waiting(st: State, s: nat, job: Job) {
    s in st.procs && st.procs[s] == Creating(job) && job.address !in st.tree
  }

  predicate Owned(st: State, s: nat, job: Job) {
    s in st.procs && job.address in st.tree && st.tree[job.address] == AddressNode(job, s)
  }

  /** The delete of a registration always works: whoever left a node at the address, it is a leaf
      of version 0. */
  lemma DeleteOldClears(st: State, s: nat)
    requires Inv(st) && s in st.procs && st.procs[s].Deleting?
    ensures Waiting(Next(st, DeleteOld(s)), s, st.procs[s].job)
  {
    assert ProcInv(st, s);
    var a := st.procs[s].job.address;
    if a in st.tree { EphemeralsAreLeaves(st.tree, a); }
  }

  /** The create works exactly when nobody has taken the address in between; otherwise the server
      panics. */
  lemma CreateNewWorks(st: State, s: nat)
    requires Inv(st) && s in st.procs && st.procs[s].Creating?
    ensures st.procs[s].job.address !in st.tree ==> Owned(Next(st, CreateNew(s)), s, st.procs[s].job)
    ensures st.procs[s].job.address in st.tree <==> Next(st, CreateNew(s)).procs[s] == Crashed
  {
    assert ProcInv(st, s);
    ServiceNodeIsPersistent(st, st.procs[s].job);
  }

  lemma OwnedStays(st: State, step: Step, s: nat, job: Job)
    requires Inv(st) && Enabled(st, step) && Owned(st, s, job) && !Disturbs(st, step, s, job.address)
    ensures Owned(Next(st, step), s, job)
  {
    SparedNodesStay(st, step, job.address);
    assert s in ProcsAfter(st, step);
  }

  /** An absent address only appears by a create of that address or as a service node. */
  lemma AbsentStays(st: State, step: Step, a: string)
    requires Enabled(st, step) && WellFormed(st.tree) && a !in st.tree && HostName(Base(a))
    requires step.CreateNew? ==> Target(st.procs[step.s]) != a
    ensures a !in TreeAfter(st, step)
  {
    match step
    case DeleteOld(r) => ClearedLaw(st.tree, Target(st.procs[r]));
    case DoWithdraw(r) => ClearedLaw(st.tree, Target(st.procs[r]));
    case _ =>
  }

  lemma WaitingStays(st: State, step: Step, s: nat, job: Job)
    requires Inv(st) && Enabled(st, step) && Waiting(st, s, job) && !Disturbs(st, step, s, job.address)
    ensures Waiting(Next(st, step), s, job) || Owned(Next(st, step), s, job)
  {
    assert ProcInv(st, s);
    if step == CreateNew(s) {
      CreateNewWorks(st, s);
    } else {
      AbsentStays(st, step, job.address);
      assert s in ProcsAfter(st, step) && ProcsAfter(st, step)[s] == st.procs[s];
    }
  }

  lemma {:induction false} HoldingStays(st: State, steps: seq<Step>, s: nat, job: Job)
    requires Inv(st) && Runs(st, steps) && Undisturbed(st, steps, s, job.address)
    requires Waiting(st, s, job) || Owned(st, s, job)
    ensures Waiting(After(st, steps), s, job) || Owned(After(st, steps), s, job)
    decreases |steps|
  {
    if steps != [] {
      if Waiting(st, s, job) { WaitingStays(st, steps[0], s, job); } else { OwnedStays(st, steps[0], s, job); }
      NextKeepsInv(st, steps[0]);
      HoldingStays(Next(st, steps[0]), steps[1..], s, job);
    }
  }

  /** A re-registered server survives its old session. Session s is about to delete and create its
      address node, which an earlier session may still own. Whatever happens then in whatever order,
      the expiry of every other session included: as long as nobody else deletes or creates that
      address and s lives, the node is there, owned by s, from the moment s has created it. */
  lemma SurvivesOldSession(st: State, s: nat, steps: seq<Step>)
    requires Inv(st) && s in st.procs && st.procs[s].Deleting?
    requires Runs(Next(st, DeleteOld(s)), steps)
    requires Undisturbed(Next(st, DeleteOld(s)), steps, s, st.procs[s].job.address)
    ensures var st', job := After(Next(st, DeleteOld(s)), steps), st.procs[s].job;
      s in st'.procs && (st'.procs[s] == Creating(job) || Owned(st', s, job))
  {
    DeleteOldClears(st, s);
    NextKeepsInv(st, DeleteOld(s));
    HoldingStays(Next(st, DeleteOld(s)), steps, s, st.procs[s].job);
  }

  /** What a create publishes: the description of the registration, in the hands of the session. */
  lemma CreateNewSays(st: State, s: nat)
    requires Inv(st) && s in st.procs && st.procs[s].Creating? && st.procs[s].job.address !in st.tree
    ensures var t', job := Next(st, CreateNew(s)).tree, st.procs[s].job;
      job.address in t' && t'[job.address].data == Meta(job.meta) && t'[job.address].owner == Some(s)
  {
    CreateNewWorks(st, s);
  }

  /** A withdrawal always frees the address, whoever holds it. */
  lemma WithdrawalFrees(st: State, s: nat)
    requires Inv(st) && s in st.procs && st.procs[s].Withdrawing?
    ensures st.procs[s].address !in Next(st, DoWithdraw(s)).tree
    ensures forall q :: q in st.tree && q != st.procs[s].address ==>
      q in Next(st, DoWithdraw(s)).tree && Next(st, DoWithdraw(s)).tree[q] == st.tree[q]
  {
    assert ProcInv(st, s);
    var a := st.procs[s].address;
    if a in st.tree && a != "/" { EphemeralsAreLeaves(st.tree, a); }
    assert a != "/" by { assert Base("/") == ""; }
    ClearedLaw(st.tree, a);
  }

  /** An expiry takes exactly the nodes of its session. */
  lemma ExpiryTakesItsOwn(st: State, s: nat, q: string)
    requires Enabled(st, Expire(s))
    ensures q in Next(st, Expire(s)).tree <==> q in st.tree && st.tree[q].owner != Some(s)
    ensures q in Next(st, Expire(s)).tree ==> Next(st, Expire(s)).tree[q] == st.tree[q]
    ensures Next(st, Expire(s)).procs == st.procs - {s}
  {
  }

  /** Why the delete is needed: on a node an older session still owns, create alone fails, and the
      node then goes when that session expires. */
  lemma CreateAloneIsNotEnough(st: State, s: nat, other: nat)
    requires Inv(st) && s in st.procs && st.procs[s].Creating? && other != s && other in st.procs
    requires st.procs[s].job.address in st.tree && st.tree[st.procs[s].job.address].owner == Some(other)
    ensures Next(st, CreateNew(s)).procs[s] == Crashed
    ensures Enabled(Next(st, CreateNew(s)), Expire(other))
    ensures st.procs[s].job.address !in Next(Next(st, CreateNew(s)), Expire(other)).tree
  {
    CreateNewWorks(st, s);
  }

  // ---------- these are changes the discovery system allows for ----------

  /** Deletes that succeed, one after the other. */
  ghost predicate Deletes(t: Tree, paths: seq<string>, t': Tree)
    decreases |paths|
  {
    if paths == [] then t == t'
    else Delete(t, paths[0], 0).Ok? && Deletes(Delete(t, paths[0], 0).value, paths[1..], t')
  }

  lemma CloseAfterDelete(t: Tree, q: string, s: nat)
    requires WellFormed(t) && q in t && t[q].owner == Some(s)
    ensures Delete(t, q, 0) == Ok(t - {q}) && WellFormed(t - {q}) && |t - {q}| < |t|
    ensures CloseSession(t - {q}, s) == CloseSession(t, s)
  {
    EphemeralsAreLeaves(t, q);
    DeleteKeepsWellFormed(t, q, 0);
    assert (t - {q}).Keys == t.Keys - {q};
  }

  lemma DeletesCons(t: Tree, q: string, rest: seq<string>, t': Tree)
    requires Delete(t, q, 0).Ok? && Deletes(Delete(t, q, 0).value, rest, t')
    ensures Deletes(t, [q] + rest, t')
  {
    assert ([q] + rest)[1..] == rest;
  }

  /** The expiry of a session is a sequence of single deletes of its nodes. */
  lemma {:induction false} ExpiryIsDeletes(t: Tree, s: nat) returns (paths: seq<string>)
    requires WellFormed(t)
    ensures Deletes(t, paths, CloseSession(t, s))
    ensures forall p :: p in paths ==> p in t && t[p].owner == Some(s)
    decreases |t|
  {
    if q :| q in t && t[q].owner == Some(s) {
      CloseAfterDelete(t, q, s);
      var rest := ExpiryIsDeletes(t - {q}, s);
      DeletesCons(t, q, rest, CloseSession(t, s));
      paths := [q] + rest;
    } else {
      paths := [];
      assert CloseSession(t, s) == t;
    }
  }

  /** Every step changes the tree by one create, or by deletes of address nodes, as the steps
      NodeAppears and NodeGoes of the discovery system do. */
  lemma StepsAreOutsideChanges(st: State, step: Step) returns (paths: seq<string>)
    requires Inv(st) && Enabled(st, step)
    ensures
      || (Deletes(st.tree, paths, Next(st, step).tree) && forall p :: p in paths ==> HostName(Base(p)))
      || (|paths| == 1 && paths[0] in Next(st, step).tree
          && var node := Next(st, step).tree[paths[0]];
             Create(st.tree, paths[0], node) == Ok(Next(st, step).tree)
             && node.version == 0 && NoSpace(paths[0]) && D.Truthful(paths[0], node))
  {
    paths := [];
    match step
    case MakeNode(path) => paths := [path];
    case CreateNew(s) =>
      assert ProcInv(st, s);
      if Create(st.tree, st.procs[s].job.address, AddressNode(st.procs[s].job, s)).Ok? {
        paths := [st.procs[s].job.address];
      }
    case DeleteOld(s) =>
      assert ProcInv(st, s);
      if Delete(st.tree, st.procs[s].job.address, 0).Ok? { paths := [st.procs[s].job.address]; }
    case DoWithdraw(s) =>
      assert ProcInv(st, s);
      if Delete(st.tree, st.procs[s].address, 0).Ok? { paths := [st.procs[s].address]; }
    case Expire(s) => paths := ExpiryIsDeletes(st.tree, s);
    case _ =>
  }
}
