/** The ZooKeeper registry object: publishing on a server, the host cache on a client
    (registry_zk.go). */
module RegistryZk {
  import opened Wrappers
  import opened GoStrings
  import opened ServiceMetas
  import opened ServiceUri
  import opened HostHistory
  import opened ClientCache
  import opened Publishing
  import opened ZkManager
  import Z = ZkTree

  lemma LongConcat(a: string, b: string, c: string, d: string)
    ensures Concat([a, b, c, d]) == Concat([Concat([a, b]), c, d])
  {
    assert [a, b, c, d][1..] == [b, c, d];
    ConcatThree(b, c, d);
    ConcatTwo(a, b);
    ConcatThree(a + b, c, d);
    assert a + (b + c + d) == a + b + c + d;
  }

  /** The nodes on which reading the first n of the given hosts leaves watches. */
  function ReadWatches(pathPrefix: string, hosts: seq<string>, replies: seq<Reply>, n: nat): set<string>
    requires |replies| == |hosts| && n <= |hosts|
  {
    set i | 0 <= i < n && replies[i].Found? :: AddressPath(pathPrefix, hosts[i])
  }

  function EntryWatches(view: View, uri: string): set<string> {
    if view.children.None? then {}
    else
      var hosts := Sort(view.children.value);
      ReadWatches(SubscriptionPath(uri), hosts, view.ReadAll(SubscriptionPath(uri), hosts), |hosts|)
  }

  /** Reading leaves watches exactly on the nodes that answered, of the hosts that were listed. */
  lemma EntryWatchesAre(view: View, uri: string, q: string)
    ensures q in EntryWatches(view, uri) <==>
      view.children.Some? && q in view.nodes
      && exists h :: h in view.children.value && q == "/moa/service/v1" + uri + "/" + h
  {
    if view.children.Some? {
      var listed := view.children.value;
      var hosts := Sort(listed);
      SortCorrect(listed);
      SubscriptionPathIs(uri);
      forall h ensures AddressPath(SubscriptionPath(uri), h) == "/moa/service/v1" + uri + "/" + h {
        AddressPathIs(SubscriptionPath(uri), h);
      }
      forall h ensures h in hosts <==> h in listed { assert h in multiset(hosts) <==> h in multiset(listed); }
      if q in view.nodes && exists h :: h in listed && q == "/moa/service/v1" + uri + "/" + h {
        var h :| h in listed && q == "/moa/service/v1" + uri + "/" + h;
        var i :| 0 <= i < |hosts| && hosts[i] == h;
        assert view.ReadAll(SubscriptionPath(uri), hosts)[i].Found?;
      }
    }
  }

  /** The watches the constructor has left on service nodes and on address nodes after the first n
      services, and the paths of these services. */
  function ListWatches(views: seq<View>, service: seq<string>, n: nat): set<string>
    requires |views| == |service| && n <= |service|
  {
    if n == 0 then {}
    else
      ListWatches(views, service, n - 1)
        + if views[n - 1].children.Some? then {SubscriptionPath(service[n - 1])} else {}
  }

  function HostWatches(views: seq<View>, service: seq<string>, n: nat): set<string>
    requires |views| == |service| && n <= |service|
  {
    if n == 0 then {} else HostWatches(views, service, n - 1) + EntryWatches(views[n - 1], service[n - 1])
  }

  function Watched(service: seq<string>, n: nat): set<string>
    requires n <= |service|
  {
    if n == 0 then {} else Watched(service, n - 1) + {SubscriptionPath(service[n - 1])}
  }

  /** The constructor leaves watches exactly on the service nodes it could list and on the address
      nodes it found, and watches the path of every service, listed or not. */
  lemma {:induction false} WatchesAre(views: seq<View>, service: seq<string>, n: nat, q: string)
    requires |views| == |service| && n <= |service|
    ensures q in ListWatches(views, service, n)
       <==> exists i :: 0 <= i < n && views[i].children.Some? && SubscriptionPath(service[i]) == q
    ensures q in HostWatches(views, service, n) <==> exists i :: 0 <= i < n && q in EntryWatches(views[i], service[i])
    ensures q in Watched(service, n) <==> exists i :: 0 <= i < n && SubscriptionPath(service[i]) == q
  {
    if n > 0 { WatchesAre(views, service, n - 1, q); }
  }

  class ZkRegistry {
    const service: seq<string>
    const serverModel: bool
    const zkManager: ZKManager
    var uri2Services: Cache

    /** views[i] holds the answers given while the i-th service is dealt with. */
    constructor (zkManager: ZKManager, service: seq<string>, serverModel: bool, views: seq<View>)
      requires |views| == |service|
      modifies zkManager`watchers, zkManager.conn`childWatches, zkManager.conn`nodeWatches
      ensures this.service == service && this.serverModel == serverModel && this.zkManager == zkManager
      ensures uri2Services == if serverModel then map[] else Initial(views, service, |service|)
      ensures zkManager.watchers == old(zkManager.watchers)
                + if serverModel then {ZK_MOA_ROOT_PATH} else Watched(service, |service|)
      ensures zkManager.conn.childWatches == old(zkManager.conn.childWatches)
                + if serverModel then {} else ListWatches(views, service, |service|)
      ensures zkManager.conn.nodeWatches == old(zkManager.conn.nodeWatches)
                + if serverModel then {} else HostWatches(views, service, |service|)
    {
      this.service := service;
      this.serverModel := serverModel;
      this.zkManager := zkManager;
      uri2Services := map[];
      new;
      if serverModel {
        var _ := zkManager.RegisteWatcher(ZK_MOA_ROOT_PATH);
      } else {
        InitialiseAll(views);
      }
    }

    /** The constructor's loop, on a cache that is empty yet. */
    method InitialiseAll(views: seq<View>)
      requires |views| == |service| && uri2Services == map[]
      modifies this`uri2Services, zkManager`watchers, zkManager.conn`childWatches, zkManager.conn`nodeWatches
      ensures uri2Services == Initial(views, service, |service|)
      ensures zkManager.watchers == old(zkManager.watchers) + Watched(service, |service|)
      ensures zkManager.conn.childWatches
           == old(zkManager.conn.childWatches) + ListWatches(views, service, |service|)
      ensures zkManager.conn.nodeWatches
           == old(zkManager.conn.nodeWatches) + HostWatches(views, service, |service|)
    {
      var i := 0;
      while i < |service|
        invariant 0 <= i <= |service|
        invariant uri2Services == Initial(views, service, i)
        invariant zkManager.watchers == old(zkManager.watchers) + Watched(service, i)
        invariant zkManager.conn.childWatches == old(zkManager.conn.childWatches) + ListWatches(views, service, i)
        invariant zkManager.conn.nodeWatches == old(zkManager.conn.nodeWatches) + HostWatches(views, service, i)
      {
        Initialise(service[i], views[i]);
        i := i + 1;
      }
    }

    /** One round of the constructor's loop. */
    method Initialise(uri: string, view: View)
      modifies this`uri2Services, zkManager`watchers, zkManager.conn`childWatches, zkManager.conn`nodeWatches
      ensures zkManager.watchers == old(zkManager.watchers) + {SubscriptionPath(uri)}
      ensures uri2Services == if view.children.Some? then old(uri2Services)[uri := view.Entry(uri)]
                              else old(uri2Services)
      ensures zkManager.conn.childWatches == old(zkManager.conn.childWatches)
                + if view.children.Some? then {SubscriptionPath(uri)} else {}
      ensures zkManager.conn.nodeWatches == old(zkManager.conn.nodeWatches) + EntryWatches(view, uri)
    {
      var servicePath := SubscriptionPath(uri);
      var _ := zkManager.RegisteWatcher(servicePath);
      zkManager.conn.ChildrenW(servicePath, view.children.Some?);
      if view.children.Some? {
        var hosts := Sort(view.children.value);
        SortIdempotentSort(view.children.value);
        var services := PullChildrenData(servicePath, uri, hosts, view.ReadAll(servicePath, hosts));
        uri2Services := uri2Services[uri := services];
      }
    }

    /** Publishes one service: the service node if it is missing, then the address node, deleted first
        and created again. Returns false where the source panics. */
    method RegisteService(serviceUri: string, hostport: string, protoType: string, groupId: string, s: ServiceMeta)
      returns (ok: bool)
      modifies zkManager.conn`tree
      ensures var servicePath := ServicePath(serviceUri, protoType, groupId);
        (zkManager.conn.tree, ok) == Publish(old(zkManager.conn.tree),
            Job(servicePath, AddressPath(servicePath, hostport), s), zkManager.conn.session)
      ensures ok && Z.WellFormed(old(zkManager.conn.tree)) ==>
        var q := "/moa/service/" + protoType + BuildServiceUri(serviceUri, groupId) + "/" + hostport;
        q in zkManager.conn.tree && zkManager.conn.tree[q] == Z.Node(Z.Meta(s), Some(zkManager.conn.session), 0)
    {
      ghost var t0 := zkManager.conn.tree;
      var servicePath := Concat([ZK_MOA_ROOT_PATH, ZK_PATH_DELIMITER, protoType]);
      servicePath := Concat([servicePath, BuildServiceUri(serviceUri, groupId)]);
      var svAddrPath := Concat([servicePath, ZK_PATH_DELIMITER, hostport]);
      var conn := zkManager.conn;
      if servicePath !in conn.tree {
        var created := zkManager.CreateNode(servicePath);
        if !created { return false; }
      }
      var _ := conn.Delete(svAddrPath, 0);
      ok := conn.Create(svAddrPath, Z.Meta(s), true);
      AddressInFull(serviceUri, protoType, groupId, hostport);
      if ok && Z.WellFormed(t0) { PublishedIs(t0, Job(servicePath, svAddrPath, s), conn.session); }
    }

    /** Withdraws one service; a missing address node is a success. */
    method UnRegisteService(serviceUri: string, hostport: string, protoType: string, groupId: string)
      returns (ok: bool)
      modifies zkManager.conn`tree
      ensures (zkManager.conn.tree, ok)
           == Withdraw(old(zkManager.conn.tree), AddressPath(ServicePath(serviceUri, protoType, groupId), hostport))
      ensures Z.WellFormed(old(zkManager.conn.tree)) ==>
        var q, t := "/moa/service/" + protoType + BuildServiceUri(serviceUri, groupId) + "/" + hostport,
          old(zkManager.conn.tree);
        && (ok <==> q !in t || Z.Children(t, q) == {})
        && zkManager.conn.tree == if ok then t - {q} else t
    {
      AddressInFull(serviceUri, protoType, groupId, hostport);
      if Z.WellFormed(zkManager.conn.tree) {
        WithdrawIs(zkManager.conn.tree, AddressPath(ServicePath(serviceUri, protoType, groupId), hostport));
      }
      var servicePath := Concat([ZK_MOA_ROOT_PATH, ZK_PATH_DELIMITER, protoType]);
      LongConcat(servicePath, BuildServiceUri(serviceUri, groupId), ZK_PATH_DELIMITER, hostport);
      servicePath := Concat([servicePath, BuildServiceUri(serviceUri, groupId), ZK_PATH_DELIMITER, hostport]);
      var conn := zkManager.conn;
      if servicePath in conn.tree {
        ok := conn.Delete(servicePath, 0);
      } else {
        ok := true;
      }
    }

    /** Closes the session, which takes its ephemeral nodes with it. */
    method Destroy()
      modifies zkManager`isClose, zkManager.conn`tree
      ensures zkManager.isClose && zkManager.conn.tree == Z.CloseSession(old(zkManager.conn.tree), zkManager.conn.session)
    {
      zkManager.Close();
    }

    /** Reads every host's node, in sorted order; replies[i] answers the i-th host of that order. */
    method PullChildrenData(pathPrefix: string, uri: string, hosts: seq<string>, replies: seq<Reply>)
      returns (services: seq<ServiceMeta>)
      requires |replies| == |Sort(hosts)|
      modifies zkManager.conn`nodeWatches
      ensures services == Pulled(uri, Sort(hosts), replies)
      ensures zkManager.conn.nodeWatches
           == old(zkManager.conn.nodeWatches) + ReadWatches(pathPrefix, Sort(hosts), replies, |replies|)
    {
      var sorted := Sort(hosts);
      services := [];
      var i := 0;
      while i < |sorted|
        invariant 0 <= i <= |sorted|
        invariant |services| == i
        invariant forall j :: 0 <= j < i ==> services[j] == MetaOf(uri, sorted[j], replies[j])
        invariant zkManager.conn.nodeWatches
               == old(zkManager.conn.nodeWatches) + ReadWatches(pathPrefix, sorted, replies, i)
      {
        zkManager.conn.GetW(Concat([pathPrefix, ZK_PATH_DELIMITER, sorted[i]]), replies[i].Found?);
        var meta;
        if replies[i].Found? && replies[i].data.Meta? {
          meta := replies[i].data.meta;
        } else {
          var (serviceUri, groupId) := UnwrapServiceUri(uri);
          meta := ServiceMeta(serviceUri, groupId, sorted[i], PROTOCOL, false);
        }
        services := services + [meta];
        i := i + 1;
      }
    }

    /** The comparison made under the read lock. */
    method ComparesUnequal(uri: string, addrs: seq<string>) returns (needChange: bool)
      ensures needChange == NeedsChange(uri2Services, uri, addrs)
    {
      needChange := true;
      if uri in uri2Services {
        var oldAddrs := uri2Services[uri];
        if |oldAddrs| > 0 && |oldAddrs| == |addrs| {
          for j := 0 to |addrs|
            invariant needChange
            invariant j == |addrs| ==> Last(HostsOf(oldAddrs)) != Last(addrs)
          {
            if oldAddrs[j].hostPort == addrs[j] && j == |addrs| - 1 {
              return false;
            }
          }
        }
      }
    }

    /** The comparison as it would have to be: the same loop, leaving at the first difference instead
        of at the last host. */
    method ComparesElementwise(uri: string, addrs: seq<string>) returns (needChange: bool)
      ensures needChange <==> !(uri in uri2Services && AllUnchanged(HostsOf(uri2Services[uri]), addrs))
      ensures !needChange ==> HostsOf(uri2Services[uri]) == addrs
      ensures NeedsChange(uri2Services, uri, addrs) ==> needChange
    {
      needChange := true;
      if uri in uri2Services {
        var oldAddrs := uri2Services[uri];
        if |oldAddrs| > 0 && |oldAddrs| == |addrs| {
          for j := 0 to |addrs|
            invariant forall k :: 0 <= k < j ==> oldAddrs[k].hostPort == addrs[k]
          {
            if oldAddrs[j].hostPort != addrs[j] {
              return true;
            }
          }
          assert HostsOf(oldAddrs) == addrs;
          needChange := false;
        }
      }
    }

    /** Reacts to a changed node. Returns false where the source panics: on a path the pattern
        does not match. */
    method NodeChange(path: string, addrs: seq<string>, replies: seq<Reply>) returns (matched: bool)
      requires |replies| == |Sort(addrs)|
      modifies this`uri2Services, zkManager.conn`nodeWatches
      ensures matched <==> Contains(path, V1_ROOT)
      ensures matched <==> MatchUri(path).Some?
      ensures !matched ==> uri2Services == old(uri2Services)
      ensures matched ==> uri2Services == Changed(old(uri2Services), MatchUri(path).value, Sort(addrs), replies)
      ensures zkManager.conn.nodeWatches == old(zkManager.conn.nodeWatches)
                + if matched && NeedsChange(old(uri2Services), MatchUri(path).value, Sort(addrs))
                  then ReadWatches(path, Sort(addrs), replies, |replies|) else {}
    {
      MatchUriFails(path);
      var m := MatchUri(path);
      if m == None { return false; }
      var needChange := ComparesUnequal(m.value, Sort(addrs));
      if needChange {
        var serviceMeta := PullChildrenData(path, m.value, addrs, replies);
        uri2Services := uri2Services[m.value := serviceMeta];
      }
      return true;
    }

    /** Looks a service up; an entry with no hosts is a success with no hosts. */
    method GetService(serviceUri: string, protoType: string, groupId: string)
      returns (r: Result<seq<ServiceMeta>, string>)
      ensures r.Ok? <==> BuildServiceUri(serviceUri, groupId) in uri2Services
      ensures r.Ok? ==> r.value == uri2Services[BuildServiceUri(serviceUri, groupId)]
    {
      var key := BuildServiceUri(serviceUri, groupId);
      if key !in uri2Services {
        return Err("No Hosts! /moa/service/" + protoType + serviceUri);
      }
      return Ok(uri2Services[key]);
    }
  }
}
