/** What the "did it change?" short cut of NodeChange does to a cached host list over a whole
    history of observed (sorted) host lists. */
module HostHistory {
  import opened Wrappers
  import opened GoStrings

  type Hosts = seq<string>

  /** The short cut as written: equal non-zero lengths and the same last host mean "no change". */
  predicate LooksUnchanged(cached: Hosts, addrs: Hosts) {
    |cached| > 0 && |cached| == |addrs| && Last(cached) == Last(addrs)
  }

  function Last(hosts: Hosts): string
    requires hosts != []
  {
    hosts[|hosts| - 1]
  }

  /** The hosts cached after a notification with the given addresses. */
  function NextHosts(cached: Option<Hosts>, addrs: Hosts): Hosts {
    if cached.Some? && LooksUnchanged(cached.value, addrs) then cached.value else addrs
  }

  /** The hosts cached after a history of notifications, starting from no entry. */
  function RunHosts(history: seq<Hosts>): Option<Hosts> {
    if history == [] then None
    else Some(NextHosts(RunHosts(history[..|history| - 1]), history[|history| - 1]))
  }

  /** A change the short cut does not see. */
  predicate Blind(before: Hosts, after: Hosts) {
    LooksUnchanged(before, after) && before != after
  }

  ghost predicate NoBlindStep(history: seq<Hosts>) {
    forall k :: 0 < k < |history| ==> !Blind(history[k - 1], history[k])
  }

  /** At every point of the history the cache shows the latest observation. */
  ghost predicate ExactThroughout(history: seq<Hosts>) {
    forall k :: 0 < k <= |history| ==> RunHosts(history[..k]) == Some(history[k - 1])
  }

  lemma {:induction false} NoBlindStepIsExact(history: seq<Hosts>)
    requires NoBlindStep(history)
    ensures ExactThroughout(history)
  {
    if history != [] {
      var n := |history| - 1;
      var shorter := history[..n];
      NoBlindStepIsExact(shorter);
      forall k | 0 < k <= |history| ensures RunHosts(history[..k]) == Some(history[k - 1]) {
        if k <= n {
          assert shorter[..k] == history[..k];
        } else {
          assert history[..k] == history;
          if n > 0 { assert shorter[..n] == shorter; assert RunHosts(shorter) == Some(history[n - 1]); }
        }
      }
    }
  }

  /** The cache is exact at every point of a history if and only if no step of it keeps both the
      number of hosts and the greatest host while changing another one. */
  lemma ExactExactlyWithoutBlindStep(history: seq<Hosts>)
    ensures ExactThroughout(history) <==> NoBlindStep(history)
  {
    if NoBlindStep(history) { NoBlindStepIsExact(history); }
    if ExactThroughout(history) {
      forall k | 0 < k < |history| ensures !Blind(history[k - 1], history[k]) {
        assert RunHosts(history[..k]) == Some(history[k - 1]);
        assert RunHosts(history[..k + 1]) == Some(history[k]);
        assert history[..k + 1][..k] == history[..k];
      }
    }
  }

  /** One of two host lists holds all hosts of the other. */
  ghost predicate Comparable(a: Hosts, b: Hosts) {
    Elements(a) <= Elements(b) || Elements(b) <= Elements(a)
  }

  lemma SubsetOfEqualSize(a: set<string>, b: set<string>)
    requires a <= b && |a| == |b|
    ensures a == b
  {
    assert |b - a| == 0;
    assert b == a + (b - a);
  }

  /** Equal length plus inclusion is equality, for sorted lists without repetition. */
  lemma ComparableIsNotBlind(a: Hosts, b: Hosts)
    requires Ascending(a) && Ascending(b) && Distinct(a) && Distinct(b)
    requires Comparable(a, b)
    ensures !Blind(a, b)
  {
    if |a| == |b| {
      DistinctCardinality(a);
      DistinctCardinality(b);
      if Elements(a) <= Elements(b) { SubsetOfEqualSize(Elements(a), Elements(b)); }
      else { SubsetOfEqualSize(Elements(b), Elements(a)); }
      ListingsSortAlike(a, b);
      SortIdempotent(a);
      SortIdempotent(b);
    }
  }

  ghost predicate SortedHistory(history: seq<Hosts>) {
    forall k :: 0 <= k < |history| ==> Ascending(history[k]) && Distinct(history[k])
  }

  /** When hosts only come or only go between two observations, the cache is exact throughout. */
  lemma ComparableHistoryIsExact(history: seq<Hosts>)
    requires SortedHistory(history)
    requires forall k :: 0 < k < |history| ==> Comparable(history[k - 1], history[k])
    ensures ExactThroughout(history)
  {
    forall k | 0 < k < |history| ensures !Blind(history[k - 1], history[k]) {
      ComparableIsNotBlind(history[k - 1], history[k]);
    }
    NoBlindStepIsExact(history);
  }

  /** What holds of every history: the cached list is one of the observed lists, it has as many
      hosts as the latest one and the same last host. */
  lemma {:induction false} EveryHistory(history: seq<Hosts>)
    requires history != []
    ensures RunHosts(history).Some?
    ensures RunHosts(history).value in history
    ensures |RunHosts(history).value| == |history[|history| - 1]|
    ensures history[|history| - 1] != [] ==> Last(RunHosts(history).value) == Last(history[|history| - 1])
  {
    var n := |history| - 1;
    if n > 0 {
      EveryHistory(history[..n]);
      assert forall h :: h in history[..n] ==> h in history;
    }
  }

  /** In a sorted history the last cached host is the greatest host of the latest observation. */
  lemma CachesTheGreatest(history: seq<Hosts>, host: string)
    requires history != [] && SortedHistory(history) && host in history[|history| - 1]
    ensures RunHosts(history).Some? && RunHosts(history).value != []
    ensures StrLe(host, Last(RunHosts(history).value))
  {
    EveryHistory(history);
    var latest := history[|history| - 1];
    var i :| 0 <= i < |latest| && latest[i] == host;
    StrLeReflexive(host);
  }

  /** The concrete failure: [a, c] followed by [b, c] leaves [a, c] in the cache. */
  lemma ShortCutGoesStale()
    ensures RunHosts([["a", "c"], ["b", "c"]]) == Some(["a", "c"])
  {
    var history := [["a", "c"], ["b", "c"]];
    assert history[..1] == [["a", "c"]];
    assert history[..1][..0] == [];
  }

  /** The order matters: sorted as the source sorts, [a, b] followed by [a, c] is noticed. */
  lemma GreaterHostIsNoticed()
    ensures Sort(["b", "a"]) == ["a", "b"]
    ensures RunHosts([Sort(["b", "a"]), Sort(["c", "a"])]) == Some(["a", "c"])
  {
    assert Sort([]) == [] && ["b", "a"][1..] == ["a"] && ["c", "a"][1..] == ["a"] && ["a"][1..] == [];
    assert Sort(["a"]) == ["a"];
    assert Insert("b", ["a"]) == ["a", "b"] && Insert("c", ["a"]) == ["a", "c"];
    var history := [["a", "b"], ["a", "c"]];
    assert history[..1] == [["a", "b"]] && history[..1][..0] == [];
  }

  // ---------- comparing every host instead ----------

  /** What the loop would find if it went on to the last host: as many hosts, all of them the same. */
  predicate AllUnchanged(cached: Hosts, addrs: Hosts) {
    |cached| > 0 && |cached| == |addrs| && forall j :: 0 <= j < |addrs| ==> cached[j] == addrs[j]
  }

  function NextHostsElementwise(cached: Option<Hosts>, addrs: Hosts): Hosts {
    if cached.Some? && AllUnchanged(cached.value, addrs) then cached.value else addrs
  }

  function RunHostsElementwise(history: seq<Hosts>): Option<Hosts> {
    if history == [] then None
    else Some(NextHostsElementwise(RunHostsElementwise(history[..|history| - 1]), history[|history| - 1]))
  }

  /** With an element-wise comparison no history goes stale, and on every history on which the
      written short cut stays exact the two agree. */
  lemma ElementwiseAlwaysExact(history: seq<Hosts>)
    requires history != []
    ensures RunHostsElementwise(history) == Some(history[|history| - 1])
    ensures NoBlindStep(history) ==> RunHosts(history) == RunHostsElementwise(history)
  {
    var cached, latest := RunHostsElementwise(history[..|history| - 1]), history[|history| - 1];
    if cached.Some? && AllUnchanged(cached.value, latest) { assert cached.value == latest; }
    if NoBlindStep(history) {
      NoBlindStepIsExact(history);
      assert history[..|history|] == history;
    }
  }
}
