/** Service uris, their groups and the ZooKeeper paths made from them (registry.go),
    and the pattern that gets the uri back out of a path (registry_zk.go). */
module ServiceUri {
  import opened Wrappers
  import opened GoStrings

  const ZK_MOA_ROOT_PATH := "/moa/service"
  const ZK_PATH_DELIMITER := "/"
  const PROTOCOL := "v1"
  const ALL_GROUP := "*"

  /** The prefix that both the path builder and the pattern agree on. */
  const V1_ROOT := "/moa/service/v1"

  function Concat(args: seq<string>): string {
    if args == [] then "" else args[0] + Concat(args[1..])
  }

  lemma ConcatTwo(a: string, b: string)
    ensures Concat([a, b]) == a + b
  {
    assert [a, b][1..] == [b];
    assert Concat([b]) == b + "";
  }

  lemma ConcatThree(a: string, b: string, c: string)
    ensures Concat([a, b, c]) == a + b + c
  {
    assert [a, b, c][1..] == [b, c];
    ConcatTwo(b, c);
    assert a + (b + c) == a + b + c;
  }

  function BuildServiceUri(serviceUri: string, groupId: string): string {
    if |groupId| > 0 && groupId != "*" then Concat([serviceUri, "#", groupId]) else serviceUri
  }

  function UnwrapServiceUri(serviceUri: string): (string, string) {
    var i := FirstIndex(serviceUri, '#');
    if i >= 0 then (serviceUri[..i], serviceUri[i + 1..]) else (serviceUri, ALL_GROUP)
  }

  /** The empty group and "*" are the same group. */
  function NormalGroup(groupId: string): string {
    if groupId == "" then ALL_GROUP else groupId
  }

  function Rebuild(key: string): string {
    var (u, g) := UnwrapServiceUri(key);
    BuildServiceUri(u, g)
  }

  lemma BuildIs(u: string, g: string)
    ensures BuildServiceUri(u, g) == if NormalGroup(g) == ALL_GROUP then u else u + "#" + g
  {
    ConcatThree(u, "#", g);
  }

  lemma UnwrapJoin(u: string, rest: string)
    requires '#' !in u
    ensures FirstIndex(u + "#" + rest, '#') == |u|
    ensures UnwrapServiceUri(u + "#" + rest) == (u, rest)
  {
    var s := u + "#" + rest;
    assert s[|u|] == '#';
    assert forall j :: 0 <= j < |u| ==> s[j] == u[j];
    assert s[..|u|] == u && s[|u| + 1..] == rest;
  }

  /** Parsing what was printed gives back uri and group exactly when the uri holds no '#'. */
  lemma UnwrapBuild(u: string, g: string)
    ensures UnwrapServiceUri(BuildServiceUri(u, g)) == (u, NormalGroup(g)) <==> '#' !in u
  {
    BuildIs(u, g);
    if '#' !in u {
      if NormalGroup(g) != ALL_GROUP { UnwrapJoin(u, g); }
    } else {
      var s := BuildServiceUri(u, g);
      var k :| 0 <= k < |u| && u[k] == '#';
      assert s[k] == '#';
      assert FirstIndex(s, '#') <= k;
    }
  }

  /** Printing is injective up to the spelling of the default group. */
  lemma BuildInjective(u: string, g: string, u': string, g': string)
    requires '#' !in u && '#' !in u'
    ensures BuildServiceUri(u, g) == BuildServiceUri(u', g')
       <==> u == u' && NormalGroup(g) == NormalGroup(g')
  {
    UnwrapBuild(u, g);
    UnwrapBuild(u', g');
    BuildIs(u, g);
    BuildIs(u', g');
  }

  /** A key "x#" or "x#*": its group is spelled out although it is the default one. */
  ghost predicate SpellsDefaultGroup(key: string) {
    exists u :: SpellsDefaultOf(key, u)
  }

  ghost predicate SpellsDefaultOf(key: string, u: string) {
    '#' !in u && (key == u + "#" || key == u + "#*")
  }

  lemma RebuildDropsDefault(key: string, u: string)
    requires SpellsDefaultOf(key, u)
    ensures Rebuild(key) == u && |u| < |key|
  {
    var rest := if key == u + "#" then "" else "*";
    assert key == u + "#" + rest;
    UnwrapJoin(u, rest);
  }

  lemma UnwrapSplits(key: string, u: string, g: string)
    requires (u, g) == UnwrapServiceUri(key)
    requires FirstIndex(key, '#') >= 0
    ensures key == u + "#" + g && '#' !in u
  {
  }

  lemma RebuildKeepsOthers(key: string, u: string, g: string)
    requires (u, g) == UnwrapServiceUri(key)
    requires !SpellsDefaultOf(key, u)
    ensures Rebuild(key) == key
  {
    BuildIs(u, g);
    if FirstIndex(key, '#') >= 0 {
      UnwrapSplits(key, u, g);
      assert g != "" by { assert u + "#" + "" == u + "#"; }
      assert g != ALL_GROUP by { assert u + "#" + "*" == u + "#*"; }
    }
  }

  /** Printing what was parsed is the identity except on "x#" and "x#*". */
  lemma RebuildIdentity(key: string)
    ensures Rebuild(key) == key <==> !SpellsDefaultGroup(key)
  {
    if SpellsDefaultGroup(key) {
      var u :| SpellsDefaultOf(key, u);
      RebuildDropsDefault(key, u);
    } else {
      var (u, g) := UnwrapServiceUri(key);
      RebuildKeepsOthers(key, u, g);
    }
  }

  lemma RebuildIdempotent(key: string)
    ensures Rebuild(Rebuild(key)) == Rebuild(key)
  {
    var (u, g) := UnwrapServiceUri(key);
    BuildIs(u, g);
    if FirstIndex(key, '#') >= 0 {
      assert '#' !in u;
      UnwrapBuild(u, g);
      BuildIs(u, NormalGroup(g));
    }
  }

  // ---------- paths ----------

  /** Path of a service node. */
  function ServicePath(serviceUri: string, protoType: string, groupId: string): string {
    Concat([Concat([ZK_MOA_ROOT_PATH, ZK_PATH_DELIMITER, protoType]), BuildServiceUri(serviceUri, groupId)])
  }

  /** Path of the address node of one host under a service node. */
  function AddressPath(servicePath: string, hostport: string): string {
    Concat([servicePath, ZK_PATH_DELIMITER, hostport])
  }

  /** The path a client watches for one entry of its service list. */
  function SubscriptionPath(uri: string): string {
    Concat([ZK_MOA_ROOT_PATH, ZK_PATH_DELIMITER, PROTOCOL, uri])
  }

  lemma SubscriptionPathIs(uri: string)
    ensures SubscriptionPath(uri) == V1_ROOT + uri
  {
    ConcatThree(ZK_PATH_DELIMITER, PROTOCOL, uri);
    assert [ZK_MOA_ROOT_PATH, ZK_PATH_DELIMITER, PROTOCOL, uri][1..] == [ZK_PATH_DELIMITER, PROTOCOL, uri];
    assert ZK_MOA_ROOT_PATH + ("/" + PROTOCOL + uri) == V1_ROOT + uri;
  }

  lemma ServicePathIs(u: string, proto: string, g: string)
    ensures ServicePath(u, proto, g) == ZK_MOA_ROOT_PATH + "/" + proto + BuildServiceUri(u, g)
    ensures proto == PROTOCOL ==> ServicePath(u, proto, g) == SubscriptionPath(BuildServiceUri(u, g))
  {
    ConcatThree(ZK_MOA_ROOT_PATH, ZK_PATH_DELIMITER, proto);
    ConcatTwo(ZK_MOA_ROOT_PATH + "/" + proto, BuildServiceUri(u, g));
    SubscriptionPathIs(BuildServiceUri(u, g));
    assert ZK_MOA_ROOT_PATH + "/" + PROTOCOL == V1_ROOT;
  }

  lemma AddressPathIs(servicePath: string, hostport: string)
    ensures AddressPath(servicePath, hostport) == servicePath + "/" + hostport
  {
    ConcatThree(servicePath, ZK_PATH_DELIMITER, hostport);
  }

  /** The paths in full, for a service without a group and one with a group. */
  lemma PathsInFull(u: string, g: string, hostport: string)
    ensures var tail := if g == "" || g == "*" then u else u + "#" + g;
      && ServicePath(u, "v1", g) == "/moa/service/v1" + tail
      && SubscriptionPath(tail) == "/moa/service/v1" + tail
      && AddressPath(ServicePath(u, "v1", g), hostport) == "/moa/service/v1" + tail + "/" + hostport
  {
    BuildIs(u, g);
    ServicePathIs(u, "v1", g);
    SubscriptionPathIs(BuildServiceUri(u, g));
    AddressPathIs(ServicePath(u, "v1", g), hostport);
  }

  /** The path of an address node in full, for any protocol. */
  lemma AddressInFull(u: string, proto: string, g: string, hostport: string)
    ensures AddressPath(ServicePath(u, proto, g), hostport)
         == "/moa/service/" + proto + BuildServiceUri(u, g) + "/" + hostport
  {
    ServicePathIs(u, proto, g);
    AddressPathIs(ServicePath(u, proto, g), hostport);
    assert ZK_MOA_ROOT_PATH + "/" == "/moa/service/";
  }

  // ---------- the pattern /moa/service/v1([^\s]*) ----------

  predicate IsSpace(c: char) { c == ' ' || c == '\t' || c == '\n' || c == '\r' || c == 12 as char }

  /** White space is tab, newline, form feed, carriage return and blank. */
  lemma WhiteSpaceIs(c: char)
    ensures IsSpace(c) <==> c as int in {9, 10, 12, 13, 32}
  {
  }

  predicate NoSpace(s: string) { forall i :: 0 <= i < |s| ==> !IsSpace(s[i]) }

  function NonSpaceRun(s: string): string {
    if s == "" || IsSpace(s[0]) then "" else [s[0]] + NonSpaceRun(s[1..])
  }

  /** It is the longest run without white space from the start. */
  lemma {:induction false} NonSpaceRunIs(s: string)
    ensures var r := NonSpaceRun(s);
      r <= s && NoSpace(r) && (|r| < |s| ==> IsSpace(s[|r|]))
  {
    if s != "" && !IsSpace(s[0]) {
      NonSpaceRunIs(s[1..]);
      assert s == [s[0]] + s[1..];
      var r := NonSpaceRun(s);
      if |r| < |s| { assert s[|r|] == s[1..][|r| - 1]; }
    }
  }

  /** The group of the leftmost match, or None when the pattern does not match at all. */
  function MatchUri(path: string): Option<string> {
    if OccursAt(path, V1_ROOT, 0) then Some(NonSpaceRun(path[|V1_ROOT|..]))
    else if path == "" then None
    else MatchUri(path[1..])
  }

  lemma {:induction false} NonSpaceRunWhole(s: string)
    ensures NonSpaceRun(s) == s <==> NoSpace(s)
  {
    if s != "" {
      NonSpaceRunWhole(s[1..]);
      assert s == [s[0]] + s[1..];
      if NoSpace(s) { assert NoSpace(s[1..]); }
      if NonSpaceRun(s) == s { assert NonSpaceRun(s)[1..] == s[1..]; }
    }
  }

  lemma OccursShift(s: string, k: string, j: nat)
    requires s != ""
    ensures OccursAt(s[1..], k, j) <==> OccursAt(s, k, j + 1)
  {
    if j + 1 + |k| <= |s| { assert s[1..][j..j + |k|] == s[j + 1..j + 1 + |k|]; }
  }

  /** NodeChange indexes the first match without a check: it panics exactly on paths outside the root. */
  lemma {:induction false} MatchUriFails(path: string)
    ensures MatchUri(path) == None <==> !Contains(path, V1_ROOT)
  {
    if OccursAt(path, V1_ROOT, 0) {
    } else if path != "" {
      MatchUriFails(path[1..]);
      if Contains(path[1..], V1_ROOT) {
        var i :| 0 <= i <= |path[1..]| && OccursAt(path[1..], V1_ROOT, i);
        OccursShift(path, V1_ROOT, i);
      }
      if Contains(path, V1_ROOT) {
        var i :| 0 <= i <= |path| && OccursAt(path, V1_ROOT, i);
        OccursShift(path, V1_ROOT, i - 1);
      }
    }
  }

  /** Which match counts: the leftmost occurrence of the root, and the longest run after it. */
  lemma {:induction false} MatchUriIs(path: string, k: nat)
    requires OccursAt(path, "/moa/service/v1", k) && forall j :: 0 <= j < k ==> !OccursAt(path, "/moa/service/v1", j)
    ensures MatchUri(path) == Some(NonSpaceRun(path[k + |"/moa/service/v1"|..]))
  {
    if k > 0 {
      assert !OccursAt(path, V1_ROOT, 0);
      OccursShift(path, V1_ROOT, k - 1);
      forall j | 0 <= j < k - 1 ensures !OccursAt(path[1..], V1_ROOT, j) { OccursShift(path, V1_ROOT, j); }
      MatchUriIs(path[1..], k - 1);
      assert path[1..][k - 1 + |V1_ROOT|..] == path[k + |V1_ROOT|..];
    }
  }

  /** The key is recovered from a path under the root exactly when it holds no white space. */
  lemma MatchUriOfRooted(key: string)
    ensures MatchUri(V1_ROOT + key) == Some(NonSpaceRun(key))
    ensures MatchUri(V1_ROOT + key) == Some(key) <==> NoSpace(key)
  {
    var path := V1_ROOT + key;
    assert path[0..0 + |V1_ROOT|] == V1_ROOT;
    assert OccursAt(path, V1_ROOT, 0);
    assert path[|V1_ROOT|..] == key;
    NonSpaceRunWhole(key);
  }

  /** Registration, notification and lookup agree on the key of a service: the uri NodeChange
      extracts from the path RegisteService builds is the key GetService looks up. */
  lemma KeysAgree(u: string, g: string)
    ensures MatchUri(ServicePath(u, PROTOCOL, g)) == Some(BuildServiceUri(u, g))
       <==> NoSpace(BuildServiceUri(u, g))
  {
    ServicePathIs(u, PROTOCOL, g);
    SubscriptionPathIs(BuildServiceUri(u, g));
    MatchUriOfRooted(BuildServiceUri(u, g));
  }
}
