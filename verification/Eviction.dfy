/** The periodic removal of counters of clients that are no longer connected (application.go). */
module Eviction {
  import opened Wrappers
  import opened GoStrings

  /** Counters per client and method. */
  type Clients = map<string, map<string, nat>>

  /** For each service its table; a service without methods never gets one. */
  type Invokes = map<string, Option<Clients>>

  /** sort.SearchStrings: the first position whose string is not less than x. */
  method SearchStrings(a: seq<string>, x: string) returns (idx: nat)
    requires Ascending(a)
    ensures idx <= |a|
    ensures forall j :: 0 <= j < idx ==> !StrLe(x, a[j])
    ensures forall j :: idx <= j < |a| ==> StrLe(x, a[j])
  {
    var i, j := 0, |a|;
    while i < j
      invariant 0 <= i <= j <= |a|
      invariant forall k :: 0 <= k < i ==> !StrLe(x, a[k])
      invariant forall k :: j <= k < |a| ==> StrLe(x, a[k])
    {
      var h := (i + j) / 2;
      if !StrLe(x, a[h]) {
        forall k | 0 <= k < h ensures !StrLe(x, a[k]) {
          if StrLe(x, a[k]) { StrLeTransitive(x, a[k], a[h]); }
        }
        i := h + 1;
      } else {
        forall k | h < k < |a| ensures StrLe(x, a[k]) { StrLeTransitive(x, a[h], a[k]); }
        j := h;
      }
    }
    idx := i;
  }

  /** The test made on the position found decides membership. */
  lemma FoundExactly(a: seq<string>, x: string, idx: nat)
    requires Ascending(a) && idx <= |a|
    requires forall j :: 0 <= j < idx ==> !StrLe(x, a[j])
    requires forall j :: idx <= j < |a| ==> StrLe(x, a[j])
    ensures x in a <==> idx < |a| && a[idx] == x
  {
    StrLeReflexive(x);
    if x in a {
      var k :| 0 <= k < |a| && a[k] == x;
      assert k >= idx;
      if k > idx {
        assert StrLe(a[idx], a[k]);
        StrLeAntisymmetric(x, a[idx]);
      }
    }
  }

  /** The clients of one table that are not connected, each once. */
  method Disconnected(clients: set<string>, allclients: seq<string>) returns (removeClients: seq<string>)
    requires Ascending(allclients)
    ensures Elements(removeClients) == clients - Elements(allclients)
  {
    removeClients := [];
    var rest := clients;
    while rest != {}
      invariant rest <= clients
      invariant Elements(removeClients) == (clients - rest) - Elements(allclients)
      decreases rest
    {
      var clientip :| clientip in rest;
      var idx := SearchStrings(allclients, clientip);
      FoundExactly(allclients, clientip, idx);
      if idx == |allclients| || allclients[idx] != clientip {
        assert Elements(removeClients + [clientip]) == Elements(removeClients) + {clientip};
        removeClients := removeClients + [clientip];
      }
      rest := rest - {clientip};
    }
  }

  /** What is left of a table when only connected clients are kept. */
  function Kept<V>(table: map<string, V>, connected: set<string>): map<string, V> {
    map client | client in table && client in connected :: table[client]
  }

  function KeptIn(table: Option<Clients>, connected: set<string>): Option<Clients> {
    match table
    case Some(clients) => Some(Kept(clients, connected))
    case None => None
  }

  /** The counters of one client of one service, if it has any. */
  function Counters(invokes: Invokes, service: string, client: string): Option<map<string, nat>> {
    if service in invokes && invokes[service].Some? && client in invokes[service].value
    then Some(invokes[service].value[client]) else None
  }

  class Cleaner {
    var invokesPerClient: Invokes

    constructor (invokesPerClient: Invokes)
      ensures this.invokesPerClient == invokesPerClient
    {
      this.invokesPerClient := invokesPerClient;
    }

    /** One pass without interference panics exactly if some service has no table. If it does not, it
        keeps a client's counters exactly if the client is connected, for every service, and changes
        no counter it keeps; if it does, some services may be left as they were. */
    method Pass(connected: seq<string>) returns (panicked: bool)
      modifies this
      ensures panicked <==> exists service :: service in old(invokesPerClient) && old(invokesPerClient)[service].None?
      ensures invokesPerClient.Keys == old(invokesPerClient).Keys
      ensures !panicked ==> forall service :: service in invokesPerClient ==>
        invokesPerClient[service] == KeptIn(old(invokesPerClient)[service], Elements(connected))
      ensures !panicked ==> forall service, client ::
        Counters(invokesPerClient, service, client)
          == if client in connected then Counters(old(invokesPerClient), service, client) else None
      ensures panicked ==> forall service :: service in invokesPerClient ==>
        || invokesPerClient[service] == old(invokesPerClient)[service]
        || invokesPerClient[service] == KeptIn(old(invokesPerClient)[service], Elements(connected))
    {
      var allclients := Sort(connected);
      SortCorrect(connected);
      SortKeepsElements(connected);
      var rest := invokesPerClient.Keys;
      while rest != {}
        invariant rest <= invokesPerClient.Keys == old(invokesPerClient).Keys
        invariant forall service :: service in invokesPerClient && service !in rest ==>
          invokesPerClient[service].Some?
        invariant forall service :: service in invokesPerClient ==>
          invokesPerClient[service] == if service in rest then old(invokesPerClient)[service]
                                       else KeptIn(old(invokesPerClient)[service], Elements(connected))
        decreases rest
      {
        var service :| service in rest;
        if invokesPerClient[service].None? { return true; }
        ghost var before := invokesPerClient[service].value;
        var removeClients := Disconnected(invokesPerClient[service].value.Keys, allclients);
        DeleteAll(service, removeClients);
        assert before - Elements(removeClients) == Kept(before, Elements(connected));
        rest := rest - {service};
      }
      return false;
    }

    /** Deletes the collected clients one by one. */
    method DeleteAll(service: string, removeClients: seq<string>)
      requires service in invokesPerClient && invokesPerClient[service].Some?
      modifies this
      ensures invokesPerClient
           == old(invokesPerClient)[service := Some(old(invokesPerClient)[service].value - Elements(removeClients))]
    {
      ghost var table := invokesPerClient[service].value;
      assert Elements(removeClients[..0]) == {};
      assert table - {} == table;
      for i := 0 to |removeClients|
        invariant invokesPerClient == old(invokesPerClient)[service := Some(table - Elements(removeClients[..i]))]
      {
        assert Elements(removeClients[..i + 1]) == Elements(removeClients[..i]) + {removeClients[i]};
        assert table - Elements(removeClients[..i + 1]) == (table - Elements(removeClients[..i])) - {removeClients[i]};
        invokesPerClient := invokesPerClient[service := Some(invokesPerClient[service].value - {removeClients[i]})];
      }
      assert removeClients[..|removeClients|] == removeClients;
    }
  }
}
