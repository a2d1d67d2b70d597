/** The registry read from a configuration file (registry_file.go): a grouped index that must
    answer like a flat scan of the file. */
module RegistryFile {
  import opened Wrappers
  import opened ServiceMetas
  import opened ServiceUri

  datatype LocalService = LocalService(
    serviceUri: string, groupId: string, protoVersion: string, isPre: bool, hostPorts: seq<string>)

  type Index = map<string, seq<ServiceMeta>>

  function DefaultedProtocol(s: LocalService): string {
    if |s.protoVersion| <= 0 then PROTOCOL else s.protoVersion
  }

  /** The entry one host of one cluster gives. */
  function EntryOf(s: LocalService, hostPort: string): ServiceMeta {
    ServiceMeta(s.serviceUri, s.groupId, hostPort, DefaultedProtocol(s), s.isPre)
  }

  // ---------- the flat scan ----------

  function EntriesOf(s: LocalService): (entries: seq<ServiceMeta>)
    ensures |entries| == |s.hostPorts|
    ensures forall i :: 0 <= i < |entries| ==> entries[i] == EntryOf(s, s.hostPorts[i])
  {
    seq(|s.hostPorts|, i requires 0 <= i < |s.hostPorts| => EntryOf(s, s.hostPorts[i]))
  }

  /** All entries of the file, in file order and with repetitions. */
  function Flat(clusters: seq<LocalService>): seq<ServiceMeta> {
    if clusters == [] then []
    else Flat(clusters[..|clusters| - 1]) + EntriesOf(clusters[|clusters| - 1])
  }

  function KeyOf(m: ServiceMeta): string { BuildServiceUri(m.serviceUri, m.groupId) }

  /** The entries that satisfy a test, in order. */
  function Filter(entries: seq<ServiceMeta>, f: ServiceMeta -> bool): seq<ServiceMeta> {
    if entries == [] then []
    else
      var last := entries[|entries| - 1];
      Filter(entries[..|entries| - 1], f) + if f(last) then [last] else []
  }

  function ByKey(key: string): ServiceMeta -> bool { (m: ServiceMeta) => KeyOf(m) == key }

  function ByProtocol(protoType: string): ServiceMeta -> bool { (m: ServiceMeta) => m.protoVersion == protoType }

  /** Key and protocol tested together. */
  function ByBoth(key: string, protoType: string): ServiceMeta -> bool {
    (m: ServiceMeta) => KeyOf(m) == key && m.protoVersion == protoType
  }

  function WithKey(entries: seq<ServiceMeta>, key: string): seq<ServiceMeta> { Filter(entries, ByKey(key)) }

  function WithProtocol(entries: seq<ServiceMeta>, protoType: string): seq<ServiceMeta> {
    Filter(entries, ByProtocol(protoType))
  }

  /** Key and protocol tested in one pass over the file. */
  function Scan(entries: seq<ServiceMeta>, key: string, protoType: string): seq<ServiceMeta> {
    Filter(entries, ByBoth(key, protoType))
  }

  lemma FilterAppend(entries: seq<ServiceMeta>, m: ServiceMeta, f: ServiceMeta -> bool)
    ensures Filter(entries + [m], f) == Filter(entries, f) + if f(m) then [m] else []
  {
    assert (entries + [m])[..|entries|] == entries;
  }

  lemma {:induction false} FilterTwice(entries: seq<ServiceMeta>, f: ServiceMeta -> bool, g: ServiceMeta -> bool,
                                       both: ServiceMeta -> bool)
    requires forall m :: both(m) <==> f(m) && g(m)
    ensures Filter(Filter(entries, f), g) == Filter(entries, both)
  {
    if entries != [] {
      var rest, last := entries[..|entries| - 1], entries[|entries| - 1];
      FilterTwice(rest, f, g, both);
      var kept := Filter(rest, f);
      if f(last) { FilterAppend(kept, last, g); } else { assert kept + [] == kept; }
    }
  }

  lemma FilterTwiceIsScan(entries: seq<ServiceMeta>, key: string, protoType: string)
    ensures WithProtocol(WithKey(entries, key), protoType) == Scan(entries, key, protoType)
  {
    FilterTwice(entries, ByKey(key), ByProtocol(protoType), ByBoth(key, protoType));
  }

  lemma WithProtocolNext(entries: seq<ServiceMeta>, i: nat, protoType: string)
    requires i < |entries|
    ensures WithProtocol(entries[..i + 1], protoType)
         == WithProtocol(entries[..i], protoType) + if entries[i].protoVersion == protoType then [entries[i]] else []
  {
    assert entries[..i + 1] == entries[..i] + [entries[i]];
    FilterAppend(entries[..i], entries[i], ByProtocol(protoType));
  }

  /** The index groups the flat entries by key and has a group for each key that occurs. */
  ghost predicate Groups(index: Index, entries: seq<ServiceMeta>) {
    && (forall key :: key in index ==> index[key] == WithKey(entries, key) && index[key] != [])
    && (forall key :: key !in index ==> WithKey(entries, key) == [])
  }

  /** The index with one more entry. */
  function WithEntry(index: Index, m: ServiceMeta): Index {
    index[KeyOf(m) := (if KeyOf(m) in index then index[KeyOf(m)] else []) + [m]]
  }

  lemma GroupsStep(index: Index, entries: seq<ServiceMeta>, m: ServiceMeta)
    requires Groups(index, entries)
    ensures Groups(WithEntry(index, m), entries + [m])
  {
    forall key ensures WithKey(entries + [m], key) == WithKey(entries, key) + if KeyOf(m) == key then [m] else [] {
      FilterAppend(entries, m, ByKey(key));
    }
  }

  lemma AppendNext(before: seq<ServiceMeta>, entries: seq<ServiceMeta>, h: nat)
    requires h < |entries|
    ensures before + entries[..h] + [entries[h]] == before + entries[..h + 1]
  {
  }

  /** One pass of the inner loop. */
  lemma EntryStep(index: Index, before: seq<ServiceMeta>, s: LocalService, h: nat)
    requires h < |s.hostPorts| && Groups(index, before + EntriesOf(s)[..h])
    ensures Groups(WithEntry(index, EntryOf(s, s.hostPorts[h])), before + EntriesOf(s)[..h + 1])
  {
    var entries, m := EntriesOf(s), EntryOf(s, s.hostPorts[h]);
    GroupsStep(index, before + entries[..h], m);
    AppendNext(before, entries, h);
  }

  class FileRegistry {
    const serverModel: bool
    const clusters: seq<LocalService>
    var uri2Services: Index

    /** The entries this registry knows: those of the file on a client, none on a server. */
    ghost function Known(): seq<ServiceMeta> {
      if serverModel then [] else Flat(clusters)
    }

    constructor (clusters: seq<LocalService>, serverModel: bool)
      ensures this.clusters == clusters && this.serverModel == serverModel
      ensures Groups(uri2Services, Known())
    {
      this.clusters := clusters;
      this.serverModel := serverModel;
      uri2Services := map[];
      new;
      if !serverModel {
        for c := 0 to |clusters|
          invariant Groups(uri2Services, Flat(clusters[..c]))
        {
          assert clusters[..c + 1][..c] == clusters[..c];
          AddCluster(clusters[c], Flat(clusters[..c]));
        }
        assert clusters[..|clusters|] == clusters;
      }
    }

    /** The inner loop: one cluster's hosts, added to an index of what came before. */
    method AddCluster(cluster: LocalService, ghost before: seq<ServiceMeta>)
      requires Groups(uri2Services, before)
      modifies this
      ensures Groups(uri2Services, before + EntriesOf(cluster))
    {
      var s := cluster;
      assert before + EntriesOf(cluster)[..0] == before;
      for h := 0 to |s.hostPorts|
        invariant s == cluster || s == cluster.(protoVersion := DefaultedProtocol(cluster))
        invariant Groups(uri2Services, before + EntriesOf(cluster)[..h])
      {
        EntryStep(uri2Services, before, cluster, h);
        s := AddHost(s, s.hostPorts[h]);
      }
      assert EntriesOf(cluster)[..|s.hostPorts|] == EntriesOf(cluster);
    }

    /** One host; the protocol is defaulted in the copy of the cluster that the loop goes on with. */
    method AddHost(cluster: LocalService, hostPort: string) returns (s: LocalService)
      modifies this
      ensures s == cluster.(protoVersion := DefaultedProtocol(cluster))
      ensures uri2Services == WithEntry(old(uri2Services), EntryOf(cluster, hostPort))
    {
      s := cluster;
      var uri := BuildServiceUri(s.serviceUri, s.groupId);
      var ss := if uri in uri2Services then uri2Services[uri] else [];
      if |s.protoVersion| <= 0 {
        s := s.(protoVersion := PROTOCOL);
      }
      var meta := ServiceMeta(s.serviceUri, s.groupId, hostPort, s.protoVersion, s.isPre);
      uri2Services := uri2Services[uri := ss + [meta]];
    }

    /** Answers exactly what one scan of the file finds, in file order and with multiplicity, and
        fails exactly when the scan finds nothing. */
    method GetService(serviceUri: string, protoType: string, groupId: string)
      returns (r: Result<seq<ServiceMeta>, string>)
      requires Groups(uri2Services, Known())
      ensures var found := Scan(Known(), BuildServiceUri(serviceUri, groupId), protoType);
        (r.Ok? <==> found != []) && (r.Ok? ==> r.value == found)
      ensures !serverModel && r.Ok? ==> exists places ::
        Answers(clusters, places, r.value, BuildServiceUri(serviceUri, groupId), protoType)
      ensures !serverModel && !r.Ok? ==> Answers(clusters, [], [], BuildServiceUri(serviceUri, groupId), protoType)
    {
      var key := BuildServiceUri(serviceUri, groupId);
      FilterTwiceIsScan(Known(), key, protoType);
      ghost var places := ScanAnswers(clusters, key, protoType);
      var hosts := if key in uri2Services then uri2Services[key] else [];
      if key !in uri2Services && |hosts| < 1 {
        return Err("No Hosts! /moa/service/" + protoType + serviceUri);
      }
      var validMetas := [];
      for i := 0 to |hosts|
        invariant validMetas == WithProtocol(hosts[..i], protoType)
      {
        WithProtocolNext(hosts, i, protoType);
        if hosts[i].protoVersion == protoType {
          validMetas := validMetas + [hosts[i]];
        }
      }
      assert hosts[..|hosts|] == hosts;
      if |validMetas| < 1 {
        return Err("No Hosts! /moa/service/" + protoType + serviceUri);
      }
      return Ok(validMetas);
    }
  }

  lemma CountAppend(s: seq<ServiceMeta>, x: ServiceMeta, taken: bool, m: ServiceMeta)
    ensures multiset(s + if taken then [x] else [])[m] == multiset(s)[m] + if taken && x == m then 1 else 0
  {
    if !taken { assert s + [] == s; }
  }

  lemma {:induction false} FilterCounts(entries: seq<ServiceMeta>, f: ServiceMeta -> bool, m: ServiceMeta)
    ensures multiset(Filter(entries, f))[m] == if f(m) then multiset(entries)[m] else 0
  {
    if entries != [] {
      var rest, last := entries[..|entries| - 1], entries[|entries| - 1];
      FilterCounts(rest, f, m);
      assert entries == rest + [last];
      CountAppend(rest, last, true, m);
      CountAppend(Filter(rest, f), last, f(last), m);
    }
  }

  /** What a scan finds: an entry is found as often as the file lists it, if it matches. */
  lemma ScanCounts(entries: seq<ServiceMeta>, key: string, protoType: string, m: ServiceMeta)
    ensures multiset(Scan(entries, key, protoType))[m]
         == if KeyOf(m) == key && m.protoVersion == protoType then multiset(entries)[m] else 0
  {
    FilterCounts(entries, ByBoth(key, protoType), m);
  }

  /** The file holds an entry exactly when one of its clusters lists the host. */
  lemma {:induction false} FlatHolds(clusters: seq<LocalService>, m: ServiceMeta)
    ensures m in Flat(clusters) <==>
            exists c, h :: 0 <= c < |clusters| && 0 <= h < |clusters[c].hostPorts|
                        && m == EntryOf(clusters[c], clusters[c].hostPorts[h])
  {
    if clusters != [] {
      var n := |clusters| - 1;
      FlatHolds(clusters[..n], m);
      if m in EntriesOf(clusters[n]) {
        var h :| 0 <= h < |clusters[n].hostPorts| && EntriesOf(clusters[n])[h] == m;
        assert m == EntryOf(clusters[n], clusters[n].hostPorts[h]);
      }
      forall c, h | 0 <= c < |clusters| && 0 <= h < |clusters[c].hostPorts|
                    && m == EntryOf(clusters[c], clusters[c].hostPorts[h])
        ensures m in Flat(clusters)
      {
        if c == n { assert EntriesOf(clusters[n])[h] == m; }
        else { assert clusters[..n][c] == clusters[c]; }
      }
    }
  }

  // ---------- the answer in terms of the file ----------

  /** A host of a cluster, by their positions in the file. */
  datatype Place = Place(cluster: nat, host: nat)

  /** Places in the order of the file. */
  predicate Before(a: Place, b: Place) {
    a.cluster < b.cluster || (a.cluster == b.cluster && a.host < b.host)
  }

  predicate InFile(clusters: seq<LocalService>, at: Place) {
    at.cluster < |clusters| && at.host < |clusters[at.cluster].hostPorts|
  }

  /** The entry says what the file says at the place. */
  predicate Says(clusters: seq<LocalService>, at: Place, m: ServiceMeta)
    requires InFile(clusters, at)
  {
    var c := clusters[at.cluster];
    && m.serviceUri == c.serviceUri && m.groupId == c.groupId && m.isPre == c.isPre
    && m.hostPort == c.hostPorts[at.host]
    && m.protoVersion == if c.protoVersion == "" then "v1" else c.protoVersion
  }

  /** What the caller asks for is at the place: its cluster builds the key and has the protocol, which
      is v1 if the file gives none. */
  predicate Asked(clusters: seq<LocalService>, at: Place, key: string, protoType: string)
    requires InFile(clusters, at)
  {
    var c := clusters[at.cluster];
    && BuildServiceUri(c.serviceUri, c.groupId) == key
    && (if c.protoVersion == "" then protoType == "v1" else c.protoVersion == protoType)
  }

  /** The entries are those at the places, and the places are in file order. */
  ghost predicate ListedAt(clusters: seq<LocalService>, places: seq<Place>, entries: seq<ServiceMeta>) {
    && |places| == |entries|
    && (forall i, j :: 0 <= i < j < |places| ==> Before(places[i], places[j]))
    && (forall i :: 0 <= i < |places| ==> InFile(clusters, places[i]) && Says(clusters, places[i], entries[i]))
  }

  /** The entries are one for each place of the file at which what is asked for stands, in file order. */
  ghost predicate Answers(clusters: seq<LocalService>, places: seq<Place>, entries: seq<ServiceMeta>,
                          key: string, protoType: string)
  {
    && ListedAt(clusters, places, entries)
    && forall at | InFile(clusters, at) :: at in places <==> Asked(clusters, at, key, protoType)
  }

  /** All places of the first n clusters, in file order. */
  function Places(clusters: seq<LocalService>, n: nat): (places: seq<Place>)
    requires n <= |clusters|
  {
    if n == 0 then []
    else Places(clusters, n - 1) + seq(|clusters[n - 1].hostPorts|, h requires h >= 0 => Place(n - 1, h))
  }

  lemma {:induction false} PlacesAreAll(clusters: seq<LocalService>, n: nat)
    requires n <= |clusters|
    ensures ListedAt(clusters, Places(clusters, n), Flat(clusters[..n]))
    ensures forall at :: at in Places(clusters, n) <==> at.cluster < n && InFile(clusters, at)
  {
    if n > 0 {
      PlacesAreAll(clusters, n - 1);
      var before, c := Places(clusters, n - 1), clusters[n - 1];
      var new' := seq(|c.hostPorts|, h requires h >= 0 => Place(n - 1, h));
      assert clusters[..n][..n - 1] == clusters[..n - 1];
      assert Flat(clusters[..n]) == Flat(clusters[..n - 1]) + EntriesOf(c);
      forall i | 0 <= i < |before| ensures before[i].cluster < n - 1 { assert before[i] in before; }
      PlacesAppend(clusters, before, Flat(clusters[..n - 1]), new', EntriesOf(c));
      forall at ensures at in new' <==> at.cluster == n - 1 && InFile(clusters, at) {
        if at.cluster == n - 1 && InFile(clusters, at) { assert new'[at.host] == at; }
      }
    }
  }

  lemma PlacesAppend(clusters: seq<LocalService>, a: seq<Place>, x: seq<ServiceMeta>, b: seq<Place>, y: seq<ServiceMeta>)
    requires ListedAt(clusters, a, x) && ListedAt(clusters, b, y)
    requires forall i, j :: 0 <= i < |a| && 0 <= j < |b| ==> Before(a[i], b[j])
    ensures ListedAt(clusters, a + b, x + y)
  {
  }

  lemma ListedPrefix(clusters: seq<LocalService>, places: seq<Place>, entries: seq<ServiceMeta>, n: nat)
    requires ListedAt(clusters, places, entries) && n < |places|
    ensures ListedAt(clusters, places[..n], entries[..n])
    ensures forall p :: p in places[..n] ==> Before(p, places[n])
    ensures forall p :: p in places[..n + 1] <==> p in places[..n] || p == places[n]
  {
    assert places[..n + 1] == places[..n] + [places[n]];
  }

  /** An entry is what is asked for exactly if its place has it. */
  lemma AskedIs(clusters: seq<LocalService>, at: Place, m: ServiceMeta, key: string, protoType: string)
    requires InFile(clusters, at) && Says(clusters, at, m)
    ensures Asked(clusters, at, key, protoType) <==> KeyOf(m) == key && m.protoVersion == protoType
  {
  }

  /** The places of the entries that a test keeps. */
  lemma {:induction false} FilterPlaces(clusters: seq<LocalService>, places: seq<Place>, entries: seq<ServiceMeta>,
                                        f: ServiceMeta -> bool) returns (kept: seq<Place>)
    requires ListedAt(clusters, places, entries)
    ensures ListedAt(clusters, kept, Filter(entries, f))
    ensures forall p :: p in kept <==> exists i :: 0 <= i < |places| && places[i] == p && f(entries[i])
  {
    if entries == [] {
      kept := [];
    } else {
      var n := |entries| - 1;
      ListedPrefix(clusters, places, entries, n);
      kept := FilterPlaces(clusters, places[..n], entries[..n], f);
      forall p | p in kept ensures Before(p, places[n]) && p in places[..n] {}
      FilterPlacesStep(places, entries, f, kept);
      if f(entries[n]) {
        KeepsOne(clusters, kept, Filter(entries[..n], f), places[n], entries[n]);
        kept := kept + [places[n]];
      } else {
        assert Filter(entries[..n], f) + [] == Filter(entries[..n], f);
      }
    }
  }

  lemma FilterPlacesStep(places: seq<Place>, entries: seq<ServiceMeta>, f: ServiceMeta -> bool, kept: seq<Place>)
    requires |places| == |entries| > 0
    requires var n := |entries| - 1;
      forall p :: p in kept <==> exists i :: 0 <= i < n && places[..n][i] == p && f(entries[..n][i])
    ensures var n := |entries| - 1;
      forall p :: (p in kept || (f(entries[n]) && p == places[n]))
             <==> exists i :: 0 <= i < |places| && places[i] == p && f(entries[i])
  {
    var n := |entries| - 1;
    forall p ensures (p in kept || (f(entries[n]) && p == places[n]))
                <==> exists i :: 0 <= i < |places| && places[i] == p && f(entries[i]) {
      if p in kept {
        var i :| 0 <= i < n && places[..n][i] == p && f(entries[..n][i]);
        assert places[i] == p && f(entries[i]);
      }
      if i :| 0 <= i < |places| && places[i] == p && f(entries[i]) {
        if i < n { assert places[..n][i] == p && f(entries[..n][i]); }
      }
    }
  }

  lemma KeepsOne(clusters: seq<LocalService>, kept: seq<Place>, entries: seq<ServiceMeta>, at: Place, m: ServiceMeta)
    requires ListedAt(clusters, kept, entries) && InFile(clusters, at) && Says(clusters, at, m)
    requires forall p :: p in kept ==> Before(p, at)
    ensures ListedAt(clusters, kept + [at], entries + [m])
  {
    forall i | 0 <= i < |kept| ensures Before(kept[i], at) { assert kept[i] in kept; }
  }

  /** What a scan of the file finds, in the file's own terms: one entry for each host of each cluster
      that builds the key and has the protocol, or none and v1 is asked for; with that cluster's uri,
      group and flag; in the order of clusters and hosts. */
  lemma ScanAnswers(clusters: seq<LocalService>, key: string, protoType: string) returns (places: seq<Place>)
    ensures Answers(clusters, places, Scan(Flat(clusters), key, protoType), key, protoType)
  {
    var n := |clusters|;
    PlacesAreAll(clusters, n);
    assert clusters[..n] == clusters;
    var all, entries := Places(clusters, n), Flat(clusters);
    places := FilterPlaces(clusters, all, entries, ByBoth(key, protoType));
    forall at | InFile(clusters, at) ensures at in places <==> Asked(clusters, at, key, protoType) {
      assert at in all;
      var i :| 0 <= i < |all| && all[i] == at;
      AskedIs(clusters, at, entries[i], key, protoType);
      if at in places {
        var j :| 0 <= j < |all| && all[j] == at && ByBoth(key, protoType)(entries[j]);
        AskedIs(clusters, at, entries[j], key, protoType);
      }
    }
  }
}
