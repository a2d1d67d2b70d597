/** The configuration centre of a server: all its services over one registry (registry.go). */
module ConfigCenters {
  import opened ServiceMetas
  import opened ServiceUri
  import opened Publishing
  import opened RegistryZk
  import Z = ZkTree

  class ConfigCenter {
    const registry: ZkRegistry
    const services: seq<Service>
    const hostport: string

    constructor (registry: ZkRegistry, services: seq<Service>, hostport: string)
      ensures this.registry == registry && this.services == services && this.hostport == hostport
    {
      this.registry := registry;
      this.services := services;
      this.hostport := hostport;
    }

    /** The arguments decide what is stored, whatever the description says. */
    method RegisteService(serviceUri: string, hostport: string, protoType: string, groupid: string, s: ServiceMeta)
      returns (ok: bool)
      modifies registry.zkManager.conn`tree
      ensures var servicePath := ServicePath(serviceUri, protoType, groupid);
        (registry.zkManager.conn.tree, ok) == Publish(old(registry.zkManager.conn.tree),
            Job(servicePath, AddressPath(servicePath, hostport),
                ServiceMeta(serviceUri, groupid, hostport, protoType, s.isPre)),
            registry.zkManager.conn.session)
    {
      var meta := s.(serviceUri := serviceUri, hostPort := hostport, protoVersion := protoType, groupId := groupid);
      ok := registry.RegisteService(serviceUri, hostport, protoType, groupid, meta);
    }

    /** Registers every service in order; false where one of them panics. */
    method RegisteAllServices() returns (ok: bool)
      modifies registry.zkManager.conn`tree
      ensures (registry.zkManager.conn.tree, ok)
           == PublishAll(old(registry.zkManager.conn.tree), JobsOf(services, hostport), registry.zkManager.conn.session)
      ensures ok && Z.WellFormed(old(registry.zkManager.conn.tree)) ==>
        Announced(registry.zkManager.conn.tree, services, hostport, registry.zkManager.conn.session)
    {
      ghost var jobs := JobsOf(services, hostport);
      ghost var session := registry.zkManager.conn.session;
      ghost var t0 := registry.zkManager.conn.tree;
      ok := true;
      for i := 0 to |services|
        invariant ok
        invariant PublishAll(t0, jobs[..i], session) == (registry.zkManager.conn.tree, true)
      {
        var s := services[i];
        PublishOneMore(t0, jobs, session, i);
        ok := RegisteService(s.serviceUri, hostport, PROTOCOL, s.groupId,
                             ServiceMeta(s.serviceUri, s.groupId, hostport, PROTOCOL, s.isPre));
        if !ok {
          StopsAtFailure(t0, jobs, session, i + 1);
          return false;
        }
      }
      assert jobs[..|services|] == jobs;
      if Z.WellFormed(t0) { RoundAnnounces(t0, services, hostport, session); }
    }

    /** Withdraws every service, going on after failures, and closes the session. */
    method Destroy()
      modifies registry.zkManager`isClose, registry.zkManager.conn`tree
      ensures registry.zkManager.isClose
      ensures registry.zkManager.conn.tree
           == Z.CloseSession(WithdrawAll(old(registry.zkManager.conn.tree), JobsOf(services, hostport)),
                             registry.zkManager.conn.session)
    {
      ghost var jobs := JobsOf(services, hostport);
      for i := 0 to |services|
        invariant registry.zkManager.conn.tree == WithdrawAll(old(registry.zkManager.conn.tree), jobs[..i])
      {
        var s := services[i];
        assert jobs[..i + 1][..i] == jobs[..i];
        var _ := registry.UnRegisteService(s.serviceUri, hostport, PROTOCOL, s.groupId);
      }
      assert jobs[..|services|] == jobs;
      registry.Destroy();
    }
  }
}
