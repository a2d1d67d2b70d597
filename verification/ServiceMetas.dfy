/** What an address node or a configuration file says about one host of a service (proxy.go). */
module ServiceMetas {
  datatype ServiceMeta = ServiceMeta(
    serviceUri: string,
    groupId: string,
    hostPort: string,
    protoVersion: string,
    isPre: bool)

  function HostsOf(metas: seq<ServiceMeta>): (hosts: seq<string>)
    ensures |hosts| == |metas|
    ensures forall i :: 0 <= i < |metas| ==> hosts[i] == metas[i].hostPort
  {
    seq(|metas|, i requires 0 <= i < |metas| => metas[i].hostPort)
  }
}
