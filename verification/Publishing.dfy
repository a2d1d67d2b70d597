/** What a server does to the ZooKeeper tree when it publishes and withdraws its services
    (registry.go, registry_zk.go). */
module Publishing {
  import opened Wrappers
  import opened GoStrings
  import opened ServiceMetas
  import opened ServiceUri
  import opened ZkTree
  import opened ZkManager

  datatype Service = Service(serviceUri: string, groupId: string, isPre: bool)

  /** One registration: the persistent service node, the ephemeral address node, its content. */
  datatype Job = Job(servicePath: string, address: string, meta: ServiceMeta)

  function JobOf(s: Service, hostport: string): Job {
    var servicePath := ServicePath(s.serviceUri, PROTOCOL, s.groupId);
    Job(servicePath, AddressPath(servicePath, hostport),
        ServiceMeta(s.serviceUri, s.groupId, hostport, PROTOCOL, s.isPre))
  }

  function JobsOf(services: seq<Service>, hostport: string): (jobs: seq<Job>)
    ensures |jobs| == |services|
    ensures forall i :: 0 <= i < |jobs| ==> jobs[i] == JobOf(services[i], hostport)
  {
    seq(|services|, i requires 0 <= i < |services| => JobOf(services[i], hostport))
  }

  function AddressNode(job: Job, session: nat): Node {
    Node(Meta(job.meta), Some(session), 0)
  }

  /** The persistent service node, created with its ancestors when it is not there; a failure closes
      the session. */
  function Prepare(t: Tree, job: Job, session: nat): (Tree, bool) {
    if job.servicePath in t then (t, true) else CreatePath(t, job.servicePath, session)
  }

  /** The preparation fails: the service node is missing and its path is blocked. */
  ghost predicate Hopeless(t: Tree, job: Job) {
    job.servicePath !in t && Blocked(t, job.servicePath)
  }

  /** The tree after a delete whose failure is ignored. */
  function Cleared(t: Tree, address: string): Tree {
    match Delete(t, address, 0)
    case Ok(t') => t'
    case Err(_) => t
  }

  function Replace(t: Tree, job: Job, session: nat): (Tree, bool) {
    var t1 := Cleared(t, job.address);
    match Create(t1, job.address, AddressNode(job, session))
    case Ok(t2) => (t2, true)
    case Err(_) => (t1, false)
  }

  /** RegisteService on the tree; false where it panics. */
  function Publish(t: Tree, job: Job, session: nat): (Tree, bool) {
    var (t1, ready) := Prepare(t, job, session);
    if ready then Replace(t1, job, session) else (t1, false)
  }

  function PublishAll(t: Tree, jobs: seq<Job>, session: nat): (Tree, bool) {
    if jobs == [] then (t, true)
    else
      var (t1, ok) := PublishAll(t, jobs[..|jobs| - 1], session);
      if ok then Publish(t1, jobs[|jobs| - 1], session) else (t1, false)
  }

  /** UnRegisteService on the tree. */
  function Withdraw(t: Tree, address: string): (Tree, bool) {
    if address !in t then (t, true)
    else match Delete(t, address, 0)
      case Ok(t') => (t', true)
      case Err(_) => (t, false)
  }

  /** The loop of Destroy, which goes on after a failure. */
  function WithdrawAll(t: Tree, jobs: seq<Job>): Tree {
    if jobs == [] then t
    else Withdraw(WithdrawAll(t, jobs[..|jobs| - 1]), jobs[|jobs| - 1].address).0
  }

  function Addresses(jobs: seq<Job>): set<string> {
    set job | job in jobs :: job.address
  }

  /** The content the last job for an address asks for. */
  function LastNode(jobs: seq<Job>, address: string, session: nat): Node
    requires address in Addresses(jobs)
  {
    var n := |jobs| - 1;
    if jobs[n].address == address then AddressNode(jobs[n], session)
    else
      assert forall job :: job in jobs ==> job in jobs[..n] || job == jobs[n];
      LastNode(jobs[..n], address, session)
  }

  predicate Proper(job: Job) {
    job.address != "/" && Parent(job.address) == job.servicePath
  }

  lemma JobsAreProper(s: Service, hostport: string)
    requires Segment(hostport)
    ensures Proper(JobOf(s, hostport)) && Nameable(JobOf(s, hostport).address)
    ensures Base(JobOf(s, hostport).address) == hostport && JobOf(s, hostport).servicePath != "/"
  {
    var sp := ServicePath(s.serviceUri, PROTOCOL, s.groupId);
    ServicePathIs(s.serviceUri, PROTOCOL, s.groupId);
    SubscriptionPathIs(BuildServiceUri(s.serviceUri, s.groupId));
    AddressPathIs(sp, hostport);
    assert |sp| > 1;
    JoinParts(sp, hostport);
  }

  // ---------- one registration ----------

  /** t' differs from t at most at the given addresses and by new persistent nodes. */
  ghost predicate TouchesOnly(t: Tree, t': Tree, addresses: set<string>) {
    && (forall q :: q in t && q !in addresses ==> q in t' && t'[q] == t[q])
    && (forall q :: q in t' && q !in t && q !in addresses ==> t'[q] == PERSISTENT)
  }

  lemma TouchesOnlyTransitive(t: Tree, t1: Tree, t2: Tree, a: set<string>, b: set<string>)
    requires TouchesOnly(t, t1, a) && TouchesOnly(t1, t2, b)
    ensures TouchesOnly(t, t2, a + b)
  {
    forall q | q in t2 && q !in t && q !in a + b ensures t2[q] == PERSISTENT {
      assert q in t1 ==> t1[q] == PERSISTENT && t2[q] == t1[q];
    }
  }

  lemma PrepareLaw(t: Tree, job: Job, session: nat)
    requires WellFormed(t)
    ensures var (t', ready) := Prepare(t, job, session);
      && WellFormed(t') && (ready <==> !Hopeless(t, job))
      && TouchesOnly(if ready then t else CloseSession(t, session), t', {})
      && (!ready ==> OwnsNone(t', session))
  {
    CreatePathLaw(t, job.servicePath, session);
  }

  lemma ClearedLaw(t: Tree, address: string)
    requires WellFormed(t)
    ensures WellFormed(Cleared(t, address))
    ensures Cleared(t, address) == t || Cleared(t, address) == t - {address}
  {
    if Delete(t, address, 0).Ok? { DeleteKeepsWellFormed(t, address, 0); }
  }

  lemma ReplaceLaw(t: Tree, job: Job, session: nat)
    requires WellFormed(t)
    ensures var (t', ok) := Replace(t, job, session);
      && WellFormed(t')
      && (forall q :: q in t && q != job.address ==> q in t' && t'[q] == t[q])
      && (forall q :: q in t' && q != job.address ==> q in t)
      && (ok ==> job.address in t' && t'[job.address] == AddressNode(job, session))
      && (!ok ==> forall q :: q in t' ==> q in t && t'[q] == t[q])
  {
    ClearedLaw(t, job.address);
    var t1 := Cleared(t, job.address);
    if Create(t1, job.address, AddressNode(job, session)).Ok? {
      CreateKeepsWellFormed(t1, job.address, AddressNode(job, session));
    }
  }

  /** One registration keeps the tree well formed. If its preparation does not fail, it touches no
      node there was but its own address, even when the final create panics; when it returns, the
      address node is the one asked for, in the hands of this session, whoever held it before. If the
      preparation fails, it panics, everything the session held is gone, and nothing else is touched. */
  lemma PublishLaw(t: Tree, job: Job, session: nat)
    requires WellFormed(t)
    ensures var (t', ok) := Publish(t, job, session);
      && WellFormed(t')
      && (!Hopeless(t, job) ==> TouchesOnly(t, t', {job.address}))
      && (ok ==> job.address in t' && t'[job.address] == AddressNode(job, session))
      && (Hopeless(t, job) ==>
            && !ok && t' == CreatePath(t, job.servicePath, session).0
            && TouchesOnly(CloseSession(t, session), t', {}) && OwnsNone(t', session))
  {
    PrepareLaw(t, job, session);
    var (t1, ready) := Prepare(t, job, session);
    if ready {
      ReplaceLaw(t1, job, session);
      TouchesOnlyTransitive(t, t1, Replace(t1, job, session).0, {}, {job.address});
      assert {} + {job.address} == {job.address};
    }
  }

  lemma AddressIsLonger(job: Job)
    requires Proper(job) && Nameable(job.address)
    ensures |job.servicePath| < |job.address|
  {
    assert job.address == Join(Parent(job.address), Base(job.address));
  }

  lemma ClearsExactly(t: Tree, address: string)
    requires WellFormed(t) && address != "/"
    ensures address !in Cleared(t, address) <==> Children(t, address) == {}
  {
    if address !in t { AbsentHasNoChildren(t, address); }
  }

  lemma ReplaceSucceeds(t: Tree, job: Job, session: nat)
    requires WellFormed(t) && Proper(job) && Nameable(job.address) && job.servicePath in t
    ensures Replace(t, job, session).1 <==> t[job.servicePath].owner.None? && Children(t, job.address) == {}
  {
    ClearedLaw(t, job.address);
    ClearsExactly(t, job.address);
    AddressIsLonger(job);
    assert job.servicePath in Cleared(t, job.address);
  }

  /** When a registration returns and when it panics. Under an existing service node it needs that
      node to be persistent and its own address to have no children; without one, the service path
      must be spelled normally and no ephemeral node may stand in its way. */
  lemma PublishPanicsExactly(t: Tree, job: Job, session: nat)
    requires WellFormed(t) && Proper(job) && Nameable(job.address) && job.servicePath != "/"
    ensures Publish(t, job, session).1 <==>
      if job.servicePath in t then t[job.servicePath].owner.None? && Children(t, job.address) == {}
      else Normal(job.servicePath) && !Blocked(t, job.servicePath)
  {
    if job.servicePath in t {
      ReplaceSucceeds(t, job, session);
    } else {
      PublishFromNothing(t, job, session);
    }
  }

  /** The same for the services of a host. */
  lemma RegistrationPanicsExactly(t: Tree, s: Service, hostport: string, session: nat)
    requires WellFormed(t) && Segment(hostport)
    ensures var sp := ServicePath(s.serviceUri, PROTOCOL, s.groupId);
      Publish(t, JobOf(s, hostport), session).1 <==>
        if sp in t then t[sp].owner.None? && Children(t, AddressPath(sp, hostport)) == {}
        else Normal(sp) && !Blocked(t, sp)
  {
    JobsAreProper(s, hostport);
    PublishPanicsExactly(t, JobOf(s, hostport), session);
  }

  lemma PublishFromNothing(t: Tree, job: Job, session: nat)
    requires WellFormed(t) && Proper(job) && Nameable(job.address)
    requires job.servicePath != "/" && job.servicePath !in t
    ensures Publish(t, job, session).1 <==>
      Normal(job.servicePath) && !Blocked(t, job.servicePath)
  {
    var sp := job.servicePath;
    CreatePathLaw(t, sp, session);
    var (t1, ok) := CreatePath(t, sp, session);
    if ok {
      CreatedAsSpelled(t, sp, session);
      if sp in t1 {
        assert t1[sp] == PERSISTENT;
        AddressIsLonger(job);
        assert job.address in t ==> HasPersistentParent(t, job.address);
        assert job.address !in t1;
        ReplaceSucceeds(t1, job, session);
        AbsentHasNoChildren(t1, job.address);
      } else {
        ClearedLaw(t1, job.address);
      }
    }
  }

  lemma AbsentHasNoChildren(t: Tree, path: string)
    requires WellFormed(t) && path !in t
    ensures Children(t, path) == {}
  {
    forall q | q in t && q != "/" ensures Parent(q) != path { assert HasPersistentParent(t, q); }
    assert ChildPaths(t, path) == {};
  }

  /** A registration can be repeated: where the service node is there and the address node is an
      ephemeral one, of any session, registering succeeds and replaces just that node. */
  lemma PublishAgain(t: Tree, job: Job, session: nat)
    requires WellFormed(t) && Proper(job) && job.address in t && t[job.address].owner.Some?
    ensures Publish(t, job, session) == (t[job.address := AddressNode(job, session)], true)
  {
    assert Nameable(job.address) && HasPersistentParent(t, job.address);
    EphemeralsAreLeaves(t, job.address);
    var t2 := t - {job.address};
    assert Delete(t, job.address, 0) == Ok(t2);
    assert |Parent(job.address)| < |job.address| by { assert job.address == Join(Parent(job.address), Base(job.address)); }
    assert t2[job.address := AddressNode(job, session)] == t[job.address := AddressNode(job, session)];
  }

  /** What is published, field by field: when a registration returns, the address node carries the
      description it was given, is of version 0 and lives with the session; and the tree has nothing
      new besides but the missing prefixes of the service path, which are empty and persistent. */
  lemma PublishedIs(t: Tree, job: Job, session: nat)
    requires WellFormed(t) && Publish(t, job, session).1
    ensures var t' := Publish(t, job, session).0;
      && job.address in t' && t'[job.address].data == Meta(job.meta)
      && t'[job.address].owner == Some(session) && t'[job.address].version == 0
      && t'.Keys == t.Keys + {job.address} + (if job.servicePath in t then {} else PathPrefixes(job.servicePath))
      && (forall q :: q in t && q != job.address ==> t'[q] == t[q])
      && (forall q :: q in t' && q !in t && q != job.address ==> t'[q] == Node(Empty, None, 0))
  {
    PublishLaw(t, job, session);
    PrepareLaw(t, job, session);
    CreatePathLaw(t, job.servicePath, session);
    ReplaceLaw(Prepare(t, job, session).0, job, session);
  }

  // ---------- all services ----------

  /** The state after all services have been registered. */
  ghost predicate Published(t: Tree, jobs: seq<Job>, session: nat) {
    WellFormed(t) && forall a :: a in Addresses(jobs) ==> a in t && t[a] == LastNode(jobs, a, session)
  }

  lemma AddressesStep(jobs: seq<Job>)
    requires jobs != []
    ensures Addresses(jobs) == Addresses(jobs[..|jobs| - 1]) + {jobs[|jobs| - 1].address}
  {
    var n := |jobs| - 1;
    assert jobs == jobs[..n] + [jobs[n]];
  }

  /** Some registration of the round comes to a preparation that fails. */
  ghost predicate Closes(t: Tree, jobs: seq<Job>, session: nat) {
    jobs != []
    && var (t1, ok) := PublishAll(t, jobs[..|jobs| - 1], session);
       Closes(t, jobs[..|jobs| - 1], session) || (ok && Hopeless(t1, jobs[|jobs| - 1]))
  }

  lemma ClosedTouchesOnly(t: Tree, t1: Tree, addresses: set<string>, session: nat)
    requires TouchesOnly(t, t1, addresses)
    ensures TouchesOnly(CloseSession(t, session), CloseSession(t1, session), addresses)
  {
    assert PERSISTENT.owner == None;
    forall q | q in CloseSession(t1, session) && q !in CloseSession(t, session) && q !in addresses
      ensures CloseSession(t1, session)[q] == PERSISTENT {}
  }

  /** All registrations of a round. If it works, each address holds the last service registered there.
      If no preparation fails, no node but the addresses is touched, panic or not. If one fails, the
      round panics, everything the session held before or has registered is gone, and nothing else is
      touched. */
  lemma {:induction false} PublishAllLaw(t: Tree, jobs: seq<Job>, session: nat)
    requires WellFormed(t)
    ensures var (t', ok) := PublishAll(t, jobs, session);
      && WellFormed(t')
      && (ok ==> Published(t', jobs, session))
      && (!Closes(t, jobs, session) ==> TouchesOnly(t, t', Addresses(jobs)))
      && (Closes(t, jobs, session) ==>
            !ok && TouchesOnly(CloseSession(t, session), t', Addresses(jobs)) && OwnsNone(t', session))
  {
    if jobs != [] {
      var n := |jobs| - 1;
      PublishAllLaw(t, jobs[..n], session);
      AddressesStep(jobs);
      var (t1, ok) := PublishAll(t, jobs[..n], session);
      if ok {
        PublishLaw(t1, jobs[n], session);
        var t2 := Publish(t1, jobs[n], session).0;
        if Hopeless(t1, jobs[n]) {
          ClosedTouchesOnly(t, t1, Addresses(jobs[..n]), session);
          TouchesOnlyTransitive(CloseSession(t, session), CloseSession(t1, session), t2, Addresses(jobs[..n]), {});
        } else {
          TouchesOnlyTransitive(t, t1, t2, Addresses(jobs[..n]), {jobs[n].address});
        }
      }
    }
  }

  lemma PublishOneMore(t: Tree, jobs: seq<Job>, session: nat, i: nat)
    requires i < |jobs|
    ensures PublishAll(t, jobs[..i + 1], session)
         == (var (t1, ok) := PublishAll(t, jobs[..i], session);
             if ok then Publish(t1, jobs[i], session) else (t1, false))
  {
    assert jobs[..i + 1][..i] == jobs[..i];
  }

  /** A registration that fails ends the loop: the rest changes nothing. */
  lemma {:induction false} StopsAtFailure(t: Tree, jobs: seq<Job>, session: nat, n: nat)
    requires n <= |jobs| && !PublishAll(t, jobs[..n], session).1
    ensures PublishAll(t, jobs, session) == PublishAll(t, jobs[..n], session)
    decreases |jobs|
  {
    if n == |jobs| {
      assert jobs[..n] == jobs;
    } else {
      var m := |jobs| - 1;
      assert jobs[..m][..n] == jobs[..n];
      StopsAtFailure(t, jobs[..m], session, n);
    }
  }

  /** A registration that panics in its preparation withdraws all earlier ones: the round ends there,
      and none of the addresses registered before it is left. */
  lemma FailedPreparationWithdraws(t: Tree, jobs: seq<Job>, session: nat, k: nat)
    requires WellFormed(t) && k < |jobs|
    requires var (t1, ok) := PublishAll(t, jobs[..k], session); ok && Hopeless(t1, jobs[k])
    ensures !PublishAll(t, jobs, session).1 && OwnsNone(PublishAll(t, jobs, session).0, session)
    ensures forall a :: a in Addresses(jobs[..k]) ==> a !in PublishAll(t, jobs, session).0
  {
    var (t1, _) := PublishAll(t, jobs[..k], session);
    PublishAllLaw(t, jobs[..k], session);
    PublishOneMore(t, jobs, session, k);
    PublishLaw(t1, jobs[k], session);
    StopsAtFailure(t, jobs, session, k + 1);
    var t2 := PublishAll(t, jobs, session).0;
    forall a | a in Addresses(jobs[..k]) ensures a !in t2 {
      LastNodeIsEphemeral(jobs[..k], a, session);
      assert t1[a].owner == Some(session) && a !in CloseSession(t1, session);
      assert a in t2 ==> t2[a].owner == None;
      CreatedSparesHeld(t1, jobs[k].servicePath, session, a);
    }
  }

  /** The address of a session does not come back as a directory when its path creation fails. */
  lemma CreatedSparesHeld(t: Tree, path: string, session: nat, a: string)
    requires WellFormed(t) && a in t && t[a].owner == Some(session) && Blocked(t, path)
    ensures a !in CreatePath(t, path, session).0
  {
    WalkGrows(t, Split(path, '/'), "/");
    CreatePathLaw(t, path, session);
  }

  /** A host that registers a service and then one whose uri continues the address of the first:
      whatever was there before, the second registration panics and takes the first with it. */
  lemma NestedServiceWithdraws(t: Tree, s: Service, nested: Service, hostport: string, name: string, session: nat)
    requires WellFormed(t) && Segment(hostport) && Segment(name)
    requires BuildServiceUri(nested.serviceUri, nested.groupId)
          == BuildServiceUri(s.serviceUri, s.groupId) + "/" + hostport + "/" + name
    requires Publish(t, JobOf(s, hostport), session).1
    ensures var jobs := JobsOf([s, nested], hostport);
      && !PublishAll(t, jobs, session).1 && jobs[0].address !in PublishAll(t, jobs, session).0
  {
    var jobs := JobsOf([s, nested], hostport);
    var first := jobs[0];
    NestedPath(s, nested, hostport, name);
    PublishLaw(t, first, session);
    var t1 := Publish(t, first, session).0;
    JobsAreProper(s, hostport);
    assert jobs[..1] == [first] && [first][..0] == [];
    assert PublishAll(t, jobs[..1], session) == (t1, true);
    EphemeralBlocks(t1, first.address, name);
    assert first in jobs[..1];
    FailedPreparationWithdraws(t, jobs, session, 1);
  }

  lemma NestedPath(s: Service, nested: Service, hostport: string, name: string)
    requires BuildServiceUri(nested.serviceUri, nested.groupId)
          == BuildServiceUri(s.serviceUri, s.groupId) + "/" + hostport + "/" + name
    ensures JobOf(nested, hostport).servicePath == JobOf(s, hostport).address + "/" + name
  {
    var b := BuildServiceUri(s.serviceUri, s.groupId);
    ServicePathIs(s.serviceUri, PROTOCOL, s.groupId);
    ServicePathIs(nested.serviceUri, PROTOCOL, nested.groupId);
    SubscriptionPathIs(b);
    SubscriptionPathIs(b + "/" + hostport + "/" + name);
    AddressPathIs(V1_ROOT + b, hostport);
    assert V1_ROOT + (b + "/" + hostport + "/" + name) == V1_ROOT + b + "/" + hostport + "/" + name;
  }

  /** Nothing can be created under an ephemeral node. */
  lemma EphemeralBlocks(t: Tree, a: string, name: string)
    requires WellFormed(t) && a in t && t[a].owner.Some? && Segment(name)
    ensures a + "/" + name !in t && Blocked(t, a + "/" + name)
  {
    var path := a + "/" + name;
    assert a != "/";
    assert path == Join(a, name);
    TreePathsAreNormal(t, a);
    JoinParts(a, name);
    assert path in t ==> HasPersistentParent(t, path);
    ChildIsNormal(a, name);
    ChildPrefixes(a, name);
  }

  /** The tree with the address nodes of the jobs put in, one after the other. */
  function Overlay(t: Tree, jobs: seq<Job>, session: nat): Tree {
    if jobs == [] then t
    else Overlay(t, jobs[..|jobs| - 1], session)[jobs[|jobs| - 1].address := AddressNode(jobs[|jobs| - 1], session)]
  }

  lemma {:induction false} OverlayIs(t: Tree, jobs: seq<Job>, session: nat)
    ensures Overlay(t, jobs, session).Keys == t.Keys + Addresses(jobs)
    ensures forall q :: q in Overlay(t, jobs, session) ==>
      Overlay(t, jobs, session)[q] == if q in Addresses(jobs) then LastNode(jobs, q, session) else t[q]
  {
    if jobs != [] {
      OverlayIs(t, jobs[..|jobs| - 1], session);
      AddressesStep(jobs);
    }
  }

  /** All addresses are held as ephemeral nodes. */
  ghost predicate Held(t: Tree, jobs: seq<Job>) {
    WellFormed(t) && forall job :: job in jobs ==> Proper(job) && job.address in t && t[job.address].owner.Some?
  }

  lemma OverlayStaysHeld(t: Tree, jobs: seq<Job>, session: nat, job: Job)
    requires job.address in t && t[job.address].owner.Some?
    ensures job.address in Overlay(t, jobs, session) && Overlay(t, jobs, session)[job.address].owner.Some?
  {
    OverlayIs(t, jobs, session);
    if job.address in Addresses(jobs) { LastNodeIsEphemeral(jobs, job.address, session); }
  }

  lemma {:induction false} PublishAllHeld(t: Tree, jobs: seq<Job>, session: nat)
    requires Held(t, jobs)
    ensures PublishAll(t, jobs, session) == (Overlay(t, jobs, session), true)
  {
    if jobs != [] {
      var n := |jobs| - 1;
      assert Held(t, jobs[..n]) by { assert forall job :: job in jobs[..n] ==> job in jobs; }
      PublishAllHeld(t, jobs[..n], session);
      PublishAllLaw(t, jobs[..n], session);
      assert jobs[n] in jobs;
      OverlayStaysHeld(t, jobs[..n], session, jobs[n]);
      PublishAgain(Overlay(t, jobs[..n], session), jobs[n], session);
    }
  }

  lemma LastNodeIsEphemeral(jobs: seq<Job>, a: string, session: nat)
    requires a in Addresses(jobs)
    ensures LastNode(jobs, a, session).owner == Some(session)
  {
  }

  /** Registering everything again, once it has worked, works and changes nothing. */
  lemma PublishAllIdempotent(t: Tree, jobs: seq<Job>, session: nat)
    requires Published(t, jobs, session) && forall job :: job in jobs ==> Proper(job)
    ensures PublishAll(t, jobs, session) == (t, true)
  {
    forall job | job in jobs ensures job.address in t && t[job.address].owner.Some? {
      assert job.address in Addresses(jobs);
      LastNodeIsEphemeral(jobs, job.address, session);
    }
    PublishAllHeld(t, jobs, session);
    OverlayIs(t, jobs, session);
    assert Overlay(t, jobs, session) == t;
  }

  /** RegisteAllServices n + 1 times. */
  function PublishRepeatedly(t: Tree, jobs: seq<Job>, session: nat, n: nat): (Tree, bool) {
    if n == 0 then PublishAll(t, jobs, session)
    else
      var (t1, ok) := PublishRepeatedly(t, jobs, session, n - 1);
      if ok then PublishAll(t1, jobs, session) else (t1, false)
  }

  /** Registering all services any number of times is the same as registering them once: if the
      first round works they all do, with one address node per distinct path, holding the last
      service registered there. No other host's node and no service node is touched unless the first
      round closes the session, and then by that alone. */
  lemma {:induction false} PublishRepeatedlyLaw(t: Tree, jobs: seq<Job>, session: nat, n: nat)
    requires WellFormed(t) && forall job :: job in jobs ==> Proper(job)
    ensures PublishRepeatedly(t, jobs, session, n) == PublishAll(t, jobs, session)
    ensures var (t', ok) := PublishRepeatedly(t, jobs, session, n);
      && (ok ==> Published(t', jobs, session))
      && (!Closes(t, jobs, session) ==> TouchesOnly(t, t', Addresses(jobs)))
      && (Closes(t, jobs, session) ==> OwnsNone(t', session))
  {
    PublishAllLaw(t, jobs, session);
    if n > 0 {
      PublishRepeatedlyLaw(t, jobs, session, n - 1);
      var (t1, ok) := PublishAll(t, jobs, session);
      if ok { PublishAllIdempotent(t1, jobs, session); }
    }
  }

  /** The address of a service of a host holds its description, in the hands of the session. */
  predicate AnnouncedAt(t: Tree, s: Service, hostport: string, session: nat) {
    var q := "/moa/service/v1" + BuildServiceUri(s.serviceUri, s.groupId) + "/" + hostport;
    && q in t && t[q].owner == Some(session) && t[q].version == 0
    && t[q].data.Meta?
    && var m := t[q].data.meta;
       && m.serviceUri == s.serviceUri && m.groupId == s.groupId && m.isPre == s.isPre
       && m.hostPort == hostport && m.protoVersion == "v1"
  }

  /** No later service of the list builds the same uri. */
  ghost predicate LastOfItsUri(services: seq<Service>, i: nat)
    requires i < |services|
  {
    forall j :: i < j < |services| ==>
      BuildServiceUri(services[j].serviceUri, services[j].groupId)
        != BuildServiceUri(services[i].serviceUri, services[i].groupId)
  }

  /** Of the services that build the same uri the last one is announced. */
  ghost predicate Announced(t: Tree, services: seq<Service>, hostport: string, session: nat) {
    forall i | 0 <= i < |services| && LastOfItsUri(services, i) :: AnnouncedAt(t, services[i], hostport, session)
  }

  lemma {:induction false} LastNodeIs(jobs: seq<Job>, i: nat, session: nat)
    requires i < |jobs| && forall j :: i < j < |jobs| ==> jobs[j].address != jobs[i].address
    ensures jobs[i].address in Addresses(jobs)
    ensures LastNode(jobs, jobs[i].address, session).data == Meta(jobs[i].meta)
    ensures LastNode(jobs, jobs[i].address, session).owner == Some(session)
    ensures LastNode(jobs, jobs[i].address, session).version == 0
  {
    var n := |jobs| - 1;
    assert jobs[i] in jobs;
    if i < n { LastNodeIs(jobs[..n], i, session); }
  }

  /** A round that works announces every service, the last one where several build the same uri. */
  lemma RoundAnnounces(t: Tree, services: seq<Service>, hostport: string, session: nat)
    requires WellFormed(t) && PublishAll(t, JobsOf(services, hostport), session).1
    ensures Announced(PublishAll(t, JobsOf(services, hostport), session).0, services, hostport, session)
  {
    var jobs := JobsOf(services, hostport);
    var t' := PublishAll(t, jobs, session).0;
    PublishAllLaw(t, jobs, session);
    forall i | 0 <= i < |services| && LastOfItsUri(services, i)
      ensures AnnouncedAt(t', services[i], hostport, session) {
      forall j | i < j < |jobs| ensures jobs[j].address != jobs[i].address {
        AddressesAreBuiltUris(services[j], services[i], hostport);
      }
      LastNodeIs(jobs, i, session);
      JobInFull(services[i], hostport);
      assert t'[jobs[i].address] == LastNode(jobs, jobs[i].address, session);
    }
  }

  lemma JobInFull(s: Service, hostport: string)
    ensures JobOf(s, hostport).address
         == "/moa/service/v1" + BuildServiceUri(s.serviceUri, s.groupId) + "/" + hostport
    ensures JobOf(s, hostport).servicePath == "/moa/service/v1" + BuildServiceUri(s.serviceUri, s.groupId)
  {
    ServicePathIs(s.serviceUri, PROTOCOL, s.groupId);
    SubscriptionPathIs(BuildServiceUri(s.serviceUri, s.groupId));
    AddressPathIs(V1_ROOT + BuildServiceUri(s.serviceUri, s.groupId), hostport);
  }

  /** Two services of one host share an address node exactly when they build the same uri. */
  lemma AddressesAreBuiltUris(s: Service, s': Service, hostport: string)
    ensures JobOf(s, hostport).address == JobOf(s', hostport).address
       <==> BuildServiceUri(s.serviceUri, s.groupId) == BuildServiceUri(s'.serviceUri, s'.groupId)
  {
    var b, b' := BuildServiceUri(s.serviceUri, s.groupId), BuildServiceUri(s'.serviceUri, s'.groupId);
    ServicePathIs(s.serviceUri, PROTOCOL, s.groupId);
    ServicePathIs(s'.serviceUri, PROTOCOL, s'.groupId);
    SubscriptionPathIs(b);
    SubscriptionPathIs(b');
    AddressPathIs(V1_ROOT + b, hostport);
    AddressPathIs(V1_ROOT + b', hostport);
    CancelAffixes(V1_ROOT, b, b', "/" + hostport);
    assert (V1_ROOT + b) + "/" + hostport == V1_ROOT + b + ("/" + hostport);
    assert (V1_ROOT + b') + "/" + hostport == V1_ROOT + b' + ("/" + hostport);
  }

  lemma CancelAffixes(pre: string, a: string, b: string, post: string)
    ensures pre + a + post == pre + b + post <==> a == b
  {
    if pre + a + post == pre + b + post {
      assert |a| == |b|;
      assert a == (pre + a + post)[|pre|..|pre| + |a|];
      assert b == (pre + b + post)[|pre|..|pre| + |b|];
    }
  }

  // ---------- withdrawal ----------

  /** One withdrawal: it succeeds exactly if the address is missing or a node that can go, one without
      children; then the address is free and no other node is touched; otherwise nothing happens. */
  lemma WithdrawIs(t: Tree, address: string)
    requires WellFormed(t)
    ensures var (t', ok) := Withdraw(t, address);
      && (ok <==> address !in t || (address != "/" && Children(t, address) == {}))
      && t' == if ok then t - {address} else t
  {
    if address !in t { assert t - {address} == t; }
  }

  /** Withdrawing never touches anything but the addresses, and removes each address held as an
      ephemeral node. */
  lemma {:induction false} WithdrawAllLaw(t: Tree, jobs: seq<Job>)
    requires WellFormed(t)
    ensures WellFormed(WithdrawAll(t, jobs))
    ensures WithdrawAll(t, jobs).Keys <= t.Keys
    ensures TouchesOnly(t, WithdrawAll(t, jobs), Addresses(jobs))
    ensures forall q :: q in WithdrawAll(t, jobs) ==> WithdrawAll(t, jobs)[q] == t[q]
    ensures forall a :: a in Addresses(jobs) && a in t && t[a].owner.Some? ==> a !in WithdrawAll(t, jobs)
  {
    if jobs != [] {
      var n := |jobs| - 1;
      WithdrawAllLaw(t, jobs[..n]);
      AddressesStep(jobs);
      var t1, a := WithdrawAll(t, jobs[..n]), jobs[n].address;
      if a in t1 {
        if t1[a].owner.Some? { assert WellFormed(t1); EphemeralsAreLeaves(t1, a); assert a != "/"; }
        if Delete(t1, a, 0).Ok? { DeleteKeepsWellFormed(t1, a, 0); }
      }
    }
  }

  /** Destroy after registering everything: exactly the registered addresses go. Closing the session
      at the end finds nothing more to remove when the session published nothing else. */
  lemma DestroyUndoesPublish(t: Tree, jobs: seq<Job>, session: nat)
    requires Published(t, jobs, session)
    requires forall q :: q in t && t[q].owner == Some(session) ==> q in Addresses(jobs)
    ensures WithdrawAll(t, jobs) == t - Addresses(jobs)
    ensures CloseSession(WithdrawAll(t, jobs), session) == t - Addresses(jobs)
  {
    forall a | a in Addresses(jobs) ensures a in t && t[a].owner.Some? { LastNodeIsEphemeral(jobs, a, session); }
    WithdrawAllLaw(t, jobs);
    var t' := WithdrawAll(t, jobs);
    assert t'.Keys == t.Keys - Addresses(jobs);
    assert t' == t - Addresses(jobs);
    assert CloseSession(t', session) == t';
  }

  // ---------- names ----------

  /** Every node that describes a host is named after it. */
  ghost predicate NamedAfterHosts(t: Tree) {
    forall q :: q in t && t[q].data.Meta? ==> t[q].data.meta.hostPort == Base(q)
  }

  lemma {:induction false} PublishKeepsNames(t: Tree, services: seq<Service>, hostport: string, session: nat)
    requires WellFormed(t) && NamedAfterHosts(t) && Segment(hostport)
    ensures NamedAfterHosts(PublishAll(t, JobsOf(services, hostport), session).0)
    ensures NamedAfterHosts(WithdrawAll(t, JobsOf(services, hostport)))
  {
    var jobs := JobsOf(services, hostport);
    WithdrawAllLaw(t, jobs);
    if services != [] {
      var n := |services| - 1;
      assert jobs[..n] == JobsOf(services[..n], hostport);
      PublishKeepsNames(t, services[..n], hostport, session);
      PublishAllLaw(t, jobs[..n], session);
      var (t1, ok) := PublishAll(t, jobs[..n], session);
      if ok {
        PublishStepKeepsNames(t1, services[n], hostport, session);
      }
    }
  }

  lemma PublishStepKeepsNames(t: Tree, s: Service, hostport: string, session: nat)
    requires WellFormed(t) && NamedAfterHosts(t) && Segment(hostport)
    ensures NamedAfterHosts(Publish(t, JobOf(s, hostport), session).0)
  {
    var job := JobOf(s, hostport);
    JobsAreProper(s, hostport);
    PrepareLaw(t, job, session);
    var (t1, ready) := Prepare(t, job, session);
    forall q | q in t1 && t1[q].data.Meta? ensures t1[q].data.meta.hostPort == Base(q) {
      assert t1[q] != PERSISTENT;
      assert q in t && t1[q] == t[q];
    }
    if ready { ReplaceLaw(t1, job, session); }
  }
}
