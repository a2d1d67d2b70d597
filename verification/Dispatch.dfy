/** The dispatch table from service uri and lower-cased method name to a method (proxy.go). */
module Dispatch {
  import opened Wrappers

  /** Parameter types as far as the dispatcher tells them apart: context.Context itself, other types
      that implement it, and everything else. takesCtx says whether the context value of an
      invocation is assignable to the type, as it is to an interface that embeds context.Context. */
  datatype Type = Context | ContextLike(name: string, takesCtx: bool) | Plain(name: string) {
    predicate ImplementsContext() { Context? || ContextLike? }
  }

  /** A result type: whether it implements error, and whether its values can be nil. */
  datatype Out = Out(implementsError: bool, nilable: bool)

  /** A variadic method declares its last parameter as a slice, but a reflective call wants the
      elements. takesSlice says whether the slice itself is assignable to the element type, as it is
      to interface{}. */
  datatype Arity = Fixed | Variadic(takesSlice: bool)

  datatype Method = Method(name: string, paramTypes: seq<Type>, returnType: seq<Out>, arity: Arity)

  /** A service as its owner declares it; implemented tells whether the instance has the interface. */
  datatype Service = Service(serviceUri: string, implemented: bool, methods: seq<Method>)

  type Methods = map<string, Method>

  /** strings.ToLower; nothing here depends on what it does. */
  type Lower = string -> string

  /** The table of methods by service uri and lower-cased name. */
  datatype Table = Table(lower: Lower, services: map<string, Methods>)

  /** One or two results, the last of which is an error. */
  predicate GoodReturns(m: Method) {
    1 <= |m.returnType| <= 2 && m.returnType[|m.returnType| - 1].implementsError
  }

  predicate Acceptable(s: Service) {
    s.implemented && forall i :: 0 <= i < |s.methods| ==> GoodReturns(s.methods[i])
  }

  // ---------- the linear scan ----------

  datatype Found = NoService | NoMethod | Reached(target: Method)

  function LastService(services: seq<Service>, uri: string): Option<Service> {
    if services == [] then None
    else if services[|services| - 1].serviceUri == uri then Some(services[|services| - 1])
    else LastService(services[..|services| - 1], uri)
  }

  predicate EqualIgnoringCase(lower: Lower, a: string, b: string) { lower(a) == lower(b) }

  function LastMethod(lower: Lower, methods: seq<Method>, name: string): Option<Method> {
    if methods == [] then None
    else if EqualIgnoringCase(lower, methods[|methods| - 1].name, name) then Some(methods[|methods| - 1])
    else LastMethod(lower, methods[..|methods| - 1], name)
  }

  /** The last service with the uri, and in it the last method with the name in any case. */
  function Scan(lower: Lower, services: seq<Service>, uri: string, name: string): Found {
    match LastService(services, uri)
    case None => NoService
    case Some(s) =>
      match LastMethod(lower, s.methods, name)
      case None => NoMethod
      case Some(m) => Reached(m)
  }

  /** The lookup that Invoke makes. */
  function Lookup(table: Table, uri: string, name: string): Found {
    if uri !in table.services then NoService
    else if table.lower(name) !in table.services[uri] then NoMethod
    else Reached(table.services[uri][table.lower(name)])
  }

  ghost predicate Resolves(lower: Lower, methods: Methods, declared: seq<Method>) {
    forall name :: (if lower(name) in methods then Some(methods[lower(name)]) else None)
                == LastMethod(lower, declared, name)
  }

  /** Building the methods of one service. None where the source panics on a method's results. */
  method BuildMethods(lower: Lower, declared: seq<Method>) returns (r: Option<Methods>)
    ensures r.Some? <==> forall i :: 0 <= i < |declared| ==> GoodReturns(declared[i])
    ensures r.Some? ==> Resolves(lower, r.value, declared)
    ensures r.Some? ==> forall k :: k in r.value ==> GoodReturns(r.value[k])
  {
    var methods: Methods := map[];
    for i := 0 to |declared|
      invariant forall j :: 0 <= j < i ==> GoodReturns(declared[j])
      invariant Resolves(lower, methods, declared[..i])
      invariant forall k :: k in methods ==> GoodReturns(methods[k])
    {
      var m := declared[i];
      if 1 <= |m.returnType| <= 2 {
        if !m.returnType[|m.returnType| - 1].implementsError {
          return None;
        }
      } else {
        return None;
      }
      assert declared[..i + 1][..i] == declared[..i];
      methods := methods[lower(m.name) := m];
    }
    assert declared[..|declared|] == declared;
    return Some(methods);
  }

  ghost predicate TableAgrees(table: Table, services: seq<Service>) {
    forall uri, name :: Lookup(table, uri, name) == Scan(table.lower, services, uri, name)
  }

  ghost predicate GoodTable(table: Table) {
    forall uri, k :: uri in table.services && k in table.services[uri] ==> GoodReturns(table.services[uri][k])
  }

  lemma TableStep(table: Table, services: seq<Service>, s: Service, methods: Methods)
    requires TableAgrees(table, services) && Resolves(table.lower, methods, s.methods)
    ensures TableAgrees(table.(services := table.services[s.serviceUri := methods]), services + [s])
  {
    var table', all := table.(services := table.services[s.serviceUri := methods]), services + [s];
    assert all[..|services|] == services;
    forall uri, name ensures Lookup(table', uri, name) == Scan(table.lower, all, uri, name) {
      assert Lookup(table, uri, name) == Scan(table.lower, services, uri, name);
    }
  }

  /** NewInvocationHandler. None where it panics: exactly when some service does not implement its
      interface or some method does not end in an error. Otherwise the table answers every lookup
      as the linear scan does. */
  method NewTable(lower: Lower, services: seq<Service>) returns (r: Option<Table>)
    ensures r.Some? <==> forall i :: 0 <= i < |services| ==> Acceptable(services[i])
    ensures r.Some? <==> forall i | 0 <= i < |services| ::
      && services[i].implemented
      && forall j | 0 <= j < |services[i].methods| ::
           var outs := services[i].methods[j].returnType;
           (|outs| == 1 && outs[0].implementsError) || (|outs| == 2 && outs[1].implementsError)
    ensures r.Some? ==> r.value.lower == lower && TableAgrees(r.value, services) && GoodTable(r.value)
  {
    var instances := Table(lower, map[]);
    for i := 0 to |services|
      invariant forall j :: 0 <= j < i ==> Acceptable(services[j])
      invariant instances.lower == lower && TableAgrees(instances, services[..i]) && GoodTable(instances)
    {
      var s := services[i];
      if !s.implemented { return None; }
      var methods := BuildMethods(lower, s.methods);
      if methods.None? { return None; }
      TableStep(instances, services[..i], s, methods.value);
      assert services[..i + 1] == services[..i] + [s];
      instances := instances.(services := instances.services[s.serviceUri := methods.value]);
    }
    assert services[..|services|] == services;
    return Some(instances);
  }

  // ---------- what the scan finds ----------

  /** The scan takes the last service with the uri. */
  lemma {:induction false} LastServiceIs(services: seq<Service>, uri: string)
    ensures LastService(services, uri) == None <==> forall i :: 0 <= i < |services| ==> services[i].serviceUri != uri
    ensures forall i | 0 <= i < |services| && services[i].serviceUri == uri
                    && (forall j :: i < j < |services| ==> services[j].serviceUri != uri) ::
              LastService(services, uri) == Some(services[i])
  {
    if services != [] {
      var n := |services| - 1;
      LastServiceIs(services[..n], uri);
      assert forall i :: 0 <= i < n ==> services[..n][i] == services[i];
    }
  }

  lemma {:induction false} LastMethodFails(lower: Lower, methods: seq<Method>, name: string)
    ensures LastMethod(lower, methods, name).None?
       <==> forall i :: 0 <= i < |methods| ==> !EqualIgnoringCase(lower, methods[i].name, name)
  {
    if methods != [] {
      LastMethodFails(lower, methods[..|methods| - 1], name);
      var n := |methods| - 1;
      assert forall i :: 0 <= i < n ==> methods[..n][i] == methods[i];
    }
  }

  ghost predicate DistinctIgnoringCase(lower: Lower, methods: seq<Method>) {
    forall i, j :: 0 <= i < j < |methods| ==> !EqualIgnoringCase(lower, methods[i].name, methods[j].name)
  }

  /** If no two method names differ in case only, every case variant of a name reaches its method. */
  lemma {:induction false} CaseVariantsReachTheirMethod(lower: Lower, methods: seq<Method>, i: nat, name: string)
    requires DistinctIgnoringCase(lower, methods) && i < |methods| && EqualIgnoringCase(lower, methods[i].name, name)
    ensures LastMethod(lower, methods, name) == Some(methods[i])
  {
    var n := |methods| - 1;
    if i < n {
      assert !EqualIgnoringCase(lower, methods[i].name, methods[n].name);
      CaseVariantsReachTheirMethod(lower, methods[..n], i, name);
    }
  }

  /** Exactly which methods can be called: in an interface, where names are distinct, a method is
      reached, and then by every case variant of its name, if and only if no later name equals its
      own ignoring case. */
  lemma {:induction false} ReachedExactly(lower: Lower, methods: seq<Method>, i: nat, name: string)
    requires forall j, k :: 0 <= j < k < |methods| ==> methods[j].name != methods[k].name
    requires i < |methods| && EqualIgnoringCase(lower, methods[i].name, name)
    ensures LastMethod(lower, methods, name) == Some(methods[i])
       <==> forall j :: i < j < |methods| ==> !EqualIgnoringCase(lower, methods[i].name, methods[j].name)
  {
    var n := |methods| - 1;
    if i < n && !EqualIgnoringCase(lower, methods[n].name, name) {
      ReachedExactly(lower, methods[..n], i, name);
      assert forall j :: 0 <= j < n ==> methods[..n][j] == methods[j];
    }
  }

  /** Otherwise the earlier of two such methods cannot be called at all. */
  lemma {:induction false} ShadowedMethodIsUnreachable(lower: Lower, methods: seq<Method>, i: nat, j: nat, name: string)
    requires i < j < |methods| && EqualIgnoringCase(lower, methods[i].name, methods[j].name)
    requires EqualIgnoringCase(lower, methods[i].name, name)
    ensures exists k :: j <= k < |methods| && LastMethod(lower, methods, name) == Some(methods[k])
  {
    var n := |methods| - 1;
    if !EqualIgnoringCase(lower, methods[n].name, name) {
      ShadowedMethodIsUnreachable(lower, methods[..n], i, j, name);
      var k :| j <= k < |methods[..n]| && LastMethod(lower, methods[..n], name) == Some(methods[..n][k]);
      assert methods[..n][k] == methods[k];
    } else {
      assert LastMethod(lower, methods, name) == Some(methods[n]);
    }
  }
}
