/** The cache of hosts per service uri that a client keeps, as functions (registry_zk.go). */
module ClientCache {
  import opened Wrappers
  import opened GoStrings
  import opened ServiceMetas
  import opened ServiceUri
  import opened HostHistory
  import Z = ZkTree

  /** Answer to reading one address node. */
  datatype Reply = Found(data: Z.Data) | Missing

  type Cache = map<string, seq<ServiceMeta>>

  /** The entry for one host: what its node says, or a default for nodes that say nothing usable. */
  function MetaOf(uri: string, host: string, reply: Reply): ServiceMeta {
    match reply
    case Found(Meta(meta)) => meta
    case _ =>
      var (serviceUri, groupId) := UnwrapServiceUri(uri);
      ServiceMeta(serviceUri, groupId, host, PROTOCOL, false)
  }

  function Pulled(uri: string, hosts: seq<string>, replies: seq<Reply>): (metas: seq<ServiceMeta>)
    requires |replies| == |hosts|
    ensures |metas| == |hosts|
    ensures forall i :: 0 <= i < |hosts| ==> metas[i] == MetaOf(uri, hosts[i], replies[i])
  {
    seq(|hosts|, i requires 0 <= i < |hosts| => MetaOf(uri, hosts[i], replies[i]))
  }

  /** What a pulled entry says, host by host: what the node says if it decodes; otherwise the uri up to
      its first '#', the group after it or "*", the host, protocol v1 and not preliminary. */
  lemma PulledSays(uri: string, hosts: seq<string>, replies: seq<Reply>, i: nat)
    requires |replies| == |hosts| && i < |hosts|
    ensures var m, reply := Pulled(uri, hosts, replies)[i], replies[i];
      && (forall meta :: reply == Found(Z.Meta(meta)) ==> m == meta)
      && (reply == Missing || reply == Found(Z.Empty) || reply == Found(Z.Undecodable) ==>
            && m.hostPort == hosts[i] && m.protoVersion == "v1" && !m.isPre
            && (if '#' in uri
                then uri == m.serviceUri + "#" + m.groupId && '#' !in m.serviceUri
                else m.serviceUri == uri && m.groupId == "*"))
  {
    if '#' in uri { assert FirstIndex(uri, '#') >= 0; }
  }

  /** What one notification does to the entry of its uri, without reference to the test: it stays as
      it is exactly when there are as many hosts as before, at least one, and the last is the same;
      otherwise it is pulled anew. */
  lemma ChangedIs(cache: Cache, uri: string, addrs: Hosts, replies: seq<Reply>)
    requires |replies| == |addrs|
    ensures var n := |addrs|;
      Changed(cache, uri, addrs, replies) ==
        if n > 0 && uri in cache && |cache[uri]| == n && cache[uri][n - 1].hostPort == addrs[n - 1] then cache
        else cache[uri := Pulled(uri, addrs, replies)]
  {
  }

  /** A node that describes a host describes the host it is named after. */
  predicate Honest(host: string, reply: Reply) {
    reply.Found? && reply.data.Meta? ==> reply.data.meta.hostPort == host
  }

  lemma PulledHosts(uri: string, hosts: seq<string>, replies: seq<Reply>)
    requires |replies| == |hosts|
    requires forall i :: 0 <= i < |hosts| ==> Honest(hosts[i], replies[i])
    ensures HostsOf(Pulled(uri, hosts, replies)) == hosts
  {
    var metas := Pulled(uri, hosts, replies);
    forall i | 0 <= i < |hosts| ensures metas[i].hostPort == hosts[i] {
      assert Honest(hosts[i], replies[i]);
    }
  }

  function CachedHosts(cache: Cache, uri: string): Option<Hosts> {
    if uri in cache then Some(HostsOf(cache[uri])) else None
  }

  predicate NeedsChange(cache: Cache, uri: string, addrs: Hosts) {
    !(uri in cache && LooksUnchanged(HostsOf(cache[uri]), addrs))
  }

  /** The cache after a notification with sorted addresses. */
  function Changed(cache: Cache, uri: string, addrs: Hosts, replies: seq<Reply>): Cache
    requires |replies| == |addrs|
  {
    if NeedsChange(cache, uri, addrs) then cache[uri := Pulled(uri, addrs, replies)] else cache
  }

  /** On host lists a notification is exactly one step of the history, and no other uri is touched. */
  lemma ChangedHosts(cache: Cache, uri: string, addrs: Hosts, replies: seq<Reply>)
    requires |replies| == |addrs|
    requires forall i :: 0 <= i < |addrs| ==> Honest(addrs[i], replies[i])
    ensures CachedHosts(Changed(cache, uri, addrs, replies), uri)
         == Some(NextHosts(CachedHosts(cache, uri), addrs))
    ensures forall other :: other != uri ==>
              CachedHosts(Changed(cache, uri, addrs, replies), other) == CachedHosts(cache, other)
  {
    PulledHosts(uri, addrs, replies);
  }

  /** The failure: with the hosts a and c cached, the notification that b and c are there now is
      taken for no change, whatever the nodes say, and a stays in the cache. */
  lemma NodeChangeMissesAChange(cache: Cache, uri: string, a: string, b: string, c: string, replies: seq<Reply>)
    requires uri in cache && HostsOf(cache[uri]) == [a, c] && a != b && |replies| == 2
    ensures Changed(cache, uri, [b, c], replies) == cache
    ensures HostsOf(Changed(cache, uri, [b, c], replies)[uri]) != [b, c]
  {
    assert Last([a, c]) == Last([b, c]) && [a, c][0] != [b, c][0];
  }

  /** The answers ZooKeeper gives while the constructor deals with one service: the children of the
      service node if it exists, and the content of each address node that exists. */
  datatype View = View(children: Option<seq<string>>, nodes: map<string, Z.Data>) {
    function Read(path: string): Reply {
      if path in nodes then Found(nodes[path]) else Missing
    }

    function ReadAll(path: string, hosts: seq<string>): (replies: seq<Reply>)
      ensures |replies| == |hosts|
    {
      seq(|hosts|, i requires 0 <= i < |hosts| => Read(AddressPath(path, hosts[i])))
    }

    /** The entry made of these answers. */
    function Entry(uri: string): seq<ServiceMeta>
      requires children.Some?
    {
      var hosts := Sort(children.value);
      Pulled(uri, hosts, ReadAll(SubscriptionPath(uri), hosts))
    }
  }

  /** The cache after the constructor has dealt with the first n services: an entry for each one
      whose node could be listed. The tree may change from one service to the next, so each has its
      own answers. */
  function Initial(views: seq<View>, service: seq<string>, n: nat): Cache
    requires |views| == |service| && n <= |service|
  {
    if n == 0 then map[]
    else
      var rest := Initial(views, service, n - 1);
      if views[n - 1].children.Some? then rest[service[n - 1] := views[n - 1].Entry(service[n - 1])] else rest
  }

  /** The i-th service of the list is the uri and could be listed. */
  predicate ListedAt(views: seq<View>, service: seq<string>, uri: string, i: nat)
    requires |views| == |service| && i < |service|
  {
    service[i] == uri && views[i].children.Some?
  }

  /** It is the last such one among the first n. */
  ghost predicate LastListedAt(views: seq<View>, service: seq<string>, n: nat, uri: string, i: nat)
    requires |views| == |service| && i < n <= |service|
  {
    ListedAt(views, service, uri, i) && forall j :: i < j < n ==> !ListedAt(views, service, uri, j)
  }

  /** The constructor caches exactly the services that could be listed. */
  lemma {:induction false} InitialUris(views: seq<View>, service: seq<string>, n: nat, uri: string)
    requires |views| == |service| && n <= |service|
    ensures uri in Initial(views, service, n) <==> exists i :: 0 <= i < n && ListedAt(views, service, uri, i)
  {
    if n > 0 {
      InitialUris(views, service, n - 1, uri);
      if ListedAt(views, service, uri, n - 1) {
        assert uri in Initial(views, service, n);
      } else {
        assert uri in Initial(views, service, n) <==> uri in Initial(views, service, n - 1);
      }
    }
  }

  /** Each of them has its sorted hosts as last listed. */
  lemma {:induction false} InitialEntries(views: seq<View>, service: seq<string>, n: nat, uri: string, i: nat)
    requires |views| == |service| && i < n <= |service| && LastListedAt(views, service, n, uri, i)
    ensures uri in Initial(views, service, n) && Initial(views, service, n)[uri] == views[i].Entry(uri)
  {
    if i < n - 1 {
      InitialEntries(views, service, n - 1, uri, i);
      assert !ListedAt(views, service, uri, n - 1);
    }
  }

  /** The entry in full: the listed hosts in ascending order, each with what its node says. */
  lemma EntryIs(view: View, uri: string)
    requires view.children.Some?
    ensures var entry, hosts := view.Entry(uri), Sort(view.children.value);
      && multiset(hosts) == multiset(view.children.value) && Ascending(hosts) && |entry| == |hosts|
      && forall i :: 0 <= i < |hosts| ==>
           var q := "/moa/service/v1" + uri + "/" + hosts[i];
           entry[i] == MetaOf(uri, hosts[i], if q in view.nodes then Found(view.nodes[q]) else Missing)
  {
    var hosts := Sort(view.children.value);
    SortCorrect(view.children.value);
    SubscriptionPathIs(uri);
    forall i | 0 <= i < |hosts|
      ensures AddressPath(SubscriptionPath(uri), hosts[i]) == "/moa/service/v1" + uri + "/" + hosts[i] {
      AddressPathIs(SubscriptionPath(uri), hosts[i]);
    }
  }

  lemma SortIdempotentSort(s: seq<string>)
    ensures Sort(Sort(s)) == Sort(s)
  {
    SortCorrect(s);
    SortIdempotent(Sort(s));
  }
}
