/** One invocation: lookup, arity, decoding, the reflective call, recovery and reply (proxy.go). */
module Invocation {
  import opened Wrappers
  import opened GoStrings
  import opened Dispatch
  import opened Stats

  const CODE_SERVER_SUCC := 200
  const CODE_SERIALIZATION := 302
  const CODE_SERVICE_NOT_FOUND := 501
  const CODE_METHOD_NOT_FOUND := 502
  const CODE_INVOCATION_TARGET := 503
  const CODE_SERIALIZATION_SERVER := 3021

  datatype Value = Value(typ: Type, payload: string)

  /** The value passed where the first parameter is a context. */
  const CONTEXT := Value(Context, "")

  /** JSON decoding of one raw argument to a type, as a partial function. */
  type Decoder = (string, Type) -> Option<string>

  datatype Request = Request(serviceUri: string, methodName: string, args: seq<string>, source: string, timeout: int)

  /** What the called method does: it panics, or returns with or without an error. */
  datatype Outcome = Panics | Returns(result: string, lastNonNil: bool)

  datatype Resp = Resp(errCode: int, result: Option<string>)

  datatype Bump = BumpProc | BumpError

  /** What one invocation counts, in order, and answers. */
  datatype Verdict = Verdict(bumps: seq<Bump>, resp: Resp)

  // ---------- parameters ----------

  predicate TakesContext(m: Method) {
    |m.paramTypes| > 0 && m.paramTypes[0].ImplementsContext()
  }

  /** The parameters that come over the wire. */
  function WireTypes(m: Method): seq<Type> {
    if TakesContext(m) then m.paramTypes[1..] else m.paramTypes
  }

  /** Decodes all arguments, or nothing if one of them fails. */
  function DecodeAll(args: seq<string>, types: seq<Type>, dec: Decoder): Option<seq<Value>>
    requires |args| == |types|
  {
    if args == [] then Some([])
    else
      var n := |args| - 1;
      match (DecodeAll(args[..n], types[..n], dec), dec(args[n], types[n]))
      case (Some(values), Some(payload)) => Some(values + [Value(types[n], payload)])
      case _ => None
  }

  function Params(m: Method, values: seq<Value>): seq<Value> {
    (if TakesContext(m) then [CONTEXT] else []) + values
  }

  /** A value can be passed for a parameter of its own type, and the context for one that takes it. */
  predicate Assignable(v: Value, t: Type) {
    v.typ == t || (v == CONTEXT && t.ContextLike? && t.takesCtx)
  }

  /** A reflective call accepts the parameters exactly when their number agrees, each is assignable,
      and the slice for a variadic parameter is taken for one of its elements. */
  predicate CallFits(m: Method, params: seq<Value>) {
    && |params| == |m.paramTypes| && (m.arity.Variadic? ==> m.arity.takesSlice)
    && forall i :: 0 <= i < |params| ==> Assignable(params[i], m.paramTypes[i])
  }

  /** The method wants a context of a type that the context of an invocation is not assignable to. */
  predicate RefusesContext(m: Method) {
    |m.paramTypes| > 0 && m.paramTypes[0].ContextLike? && !m.paramTypes[0].takesCtx
  }

  lemma {:induction false} DecodeAllInOrder(args: seq<string>, types: seq<Type>, dec: Decoder)
    requires |args| == |types|
    ensures DecodeAll(args, types, dec).Some? <==> forall i :: 0 <= i < |args| ==> dec(args[i], types[i]).Some?
    ensures DecodeAll(args, types, dec).Some? ==>
              var values := DecodeAll(args, types, dec).value;
              |values| == |args| && forall i :: 0 <= i < |args| ==>
                values[i].typ == types[i] && dec(args[i], types[i]) == Some(values[i].payload)
  {
    if args != [] {
      var n := |args| - 1;
      DecodeAllInOrder(args[..n], types[..n], dec);
      if forall i :: 0 <= i < |args| ==> dec(args[i], types[i]).Some? {
        forall i | 0 <= i < n ensures dec(args[..n][i], types[..n][i]).Some? {}
      }
      if DecodeAll(args, types, dec).Some? {
        forall i | 0 <= i < |args| ensures dec(args[i], types[i]).Some? {
          if i < n { assert dec(args[..n][i], types[..n][i]).Some?; }
        }
        var values := DecodeAll(args, types, dec).value;
        forall i | 0 <= i < |args|
          ensures values[i].typ == types[i] && dec(args[i], types[i]) == Some(values[i].payload) {
          if i < n { assert args[..n][i] == args[i] && types[..n][i] == types[i]; }
        }
      }
    }
  }

  function Offset(m: Method): nat { if TakesContext(m) then 1 else 0 }

  lemma ParamsAlign(m: Method, values: seq<Value>)
    requires |values| == |WireTypes(m)|
    ensures |Params(m, values)| == |m.paramTypes| == |values| + Offset(m)
    ensures forall i | Offset(m) <= i < |m.paramTypes| ::
      Params(m, values)[i] == values[i - Offset(m)] && m.paramTypes[i] == WireTypes(m)[i - Offset(m)]
    ensures TakesContext(m) ==> Params(m, values)[0] == CONTEXT
  {
    var params := Params(m, values);
    if TakesContext(m) {
      assert params == [CONTEXT] + values && m.paramTypes == [m.paramTypes[0]] + WireTypes(m);
    } else {
      assert params == values;
    }
  }

  /** No parameters decoded to the declared types are accepted. */
  predicate RefusesCall(m: Method) {
    RefusesContext(m) || m.arity == Variadic(false)
  }

  lemma WireSlotsFit(m: Method, values: seq<Value>)
    requires |values| == |WireTypes(m)| && forall k :: 0 <= k < |values| ==> values[k].typ == WireTypes(m)[k]
    ensures |Params(m, values)| == |m.paramTypes|
    ensures forall i | Offset(m) <= i < |m.paramTypes| :: Params(m, values)[i].typ == m.paramTypes[i]
  {
    ParamsAlign(m, values);
    forall i | Offset(m) <= i < |m.paramTypes| ensures Params(m, values)[i].typ == m.paramTypes[i] {
      assert values[i - Offset(m)].typ == WireTypes(m)[i - Offset(m)];
    }
  }

  /** Parameters of the right wire types are accepted exactly when the context slot takes the context
      and a variadic slot the slice. */
  lemma FitsExactly(m: Method, values: seq<Value>)
    requires |values| == |WireTypes(m)| && forall k :: 0 <= k < |values| ==> values[k].typ == WireTypes(m)[k]
    ensures CallFits(m, Params(m, values)) <==> !RefusesCall(m)
  {
    ParamsAlign(m, values);
    WireSlotsFit(m, values);
    var params := Params(m, values);
    if RefusesContext(m) {
      assert params[0] == CONTEXT && !Assignable(params[0], m.paramTypes[0]);
    } else {
      forall i | 0 <= i < |params| ensures Assignable(params[i], m.paramTypes[i]) {}
    }
  }

  /** Whenever the reflective call is reached there is one parameter per declared type, the context
      comes first exactly when the first declared type is a context, and the rest are the wire
      arguments decoded in order to the declared types. The call accepts them exactly when the first
      type does not refuse the context and the method is not a variadic one that refuses the slice. */
  lemma CallsAreWellTyped(m: Method, args: seq<string>, dec: Decoder)
    requires |args| == |WireTypes(m)| && DecodeAll(args, WireTypes(m), dec).Some?
    ensures var params := Params(m, DecodeAll(args, WireTypes(m), dec).value);
      && |params| == |m.paramTypes| == |args| + Offset(m)
      && (Offset(m) == 1 <==> |m.paramTypes| > 0 && m.paramTypes[0].ImplementsContext())
      && (Offset(m) == 1 ==> params[0] == CONTEXT)
      && (forall i | Offset(m) <= i < |m.paramTypes| ::
            && params[i].typ == m.paramTypes[i]
            && dec(args[i - Offset(m)], m.paramTypes[i]) == Some(params[i].payload))
      && (CallFits(m, params) <==> !RefusesCall(m))
  {
    DecodeAllInOrder(args, WireTypes(m), dec);
    var values := DecodeAll(args, WireTypes(m), dec).value;
    ParamsAlign(m, values);
    FitsExactly(m, values);
    var params := Params(m, values);
    forall i | Offset(m) <= i < |m.paramTypes|
      ensures params[i].typ == m.paramTypes[i]
      ensures dec(args[i - Offset(m)], m.paramTypes[i]) == Some(params[i].payload) {
      assert values[i - Offset(m)].typ == WireTypes(m)[i - Offset(m)];
    }
  }

  // ---------- the verdict ----------

  const FAILED := Verdict([BumpError], Resp(CODE_INVOCATION_TARGET, None))

  /** The last declared result cannot be nil: asking whether it is panics. */
  predicate UnaskableError(m: Method)
    requires GoodReturns(m)
  {
    !m.returnType[|m.returnType| - 1].nilable
  }

  /** From the reflective call to the end, panics recovered. */
  function Settle(m: Method, params: seq<Value>, outcome: Outcome): Verdict
    requires GoodReturns(m)
  {
    if !CallFits(m, params) || outcome.Panics? then FAILED
    else if |m.returnType| == 1 then
      if UnaskableError(m) || outcome.lastNonNil then FAILED
      else Verdict([BumpProc], Resp(CODE_SERVER_SUCC, None))
    else if UnaskableError(m) then
      Verdict([BumpProc, BumpError], Resp(CODE_INVOCATION_TARGET, Some(outcome.result)))
    else Verdict([BumpProc], Resp(CODE_SERVER_SUCC, Some(outcome.result)))
  }

  function Judge(table: Table, req: Request, dec: Decoder, outcome: Outcome): Verdict
    requires GoodTable(table)
  {
    match Lookup(table, req.serviceUri, req.methodName)
    case NoService => Verdict([BumpError], Resp(CODE_SERVICE_NOT_FOUND, None))
    case NoMethod => Verdict([BumpError], Resp(CODE_METHOD_NOT_FOUND, None))
    case Reached(m) => JudgeCall(m, req.args, dec, outcome)
  }

  function JudgeCall(m: Method, args: seq<string>, dec: Decoder, outcome: Outcome): Verdict
    requires GoodReturns(m)
  {
    if |args| != |WireTypes(m)| then Verdict([BumpError], Resp(CODE_SERIALIZATION, None))
    else match DecodeAll(args, WireTypes(m), dec)
      case None => Verdict([BumpError], Resp(CODE_SERIALIZATION_SERVER, None))
      case Some(values) => Settle(m, Params(m, values), outcome)
  }

  /** The invocation is counted twice: the method has a result and an error that cannot be nil, and
      it was called and returned. */
  predicate CountedTwice(table: Table, req: Request, dec: Decoder, outcome: Outcome) {
    var found := Lookup(table, req.serviceUri, req.methodName);
    && found.Reached? && |found.target.returnType| == 2 && !found.target.returnType[1].nilable
    && |req.args| == |WireTypes(found.target)|
    && DecodeAll(req.args, WireTypes(found.target), dec).Some?
    && !RefusesCall(found.target)
    && outcome.Returns?
  }

  lemma SettleBumps(m: Method, params: seq<Value>, outcome: Outcome)
    requires GoodReturns(m)
    ensures var v := Settle(m, params, outcome);
      if |m.returnType| == 2 && !m.returnType[1].nilable && outcome.Returns? && CallFits(m, params)
      then v.bumps == [BumpProc, BumpError]
      else v.bumps == [BumpProc] || v.bumps == [BumpError]
  {
  }

  lemma CallBumps(m: Method, args: seq<string>, dec: Decoder, outcome: Outcome)
    requires GoodReturns(m)
    ensures var v := JudgeCall(m, args, dec, outcome);
      if |m.returnType| == 2 && !m.returnType[1].nilable && outcome.Returns?
         && |args| == |WireTypes(m)| && DecodeAll(args, WireTypes(m), dec).Some?
         && !RefusesCall(m)
      then v.bumps == [BumpProc, BumpError]
      else v.bumps == [BumpProc] || v.bumps == [BumpError]
  {
    if |args| == |WireTypes(m)| && DecodeAll(args, WireTypes(m), dec).Some? {
      CallsAreWellTyped(m, args, dec);
      SettleBumps(m, Params(m, DecodeAll(args, WireTypes(m), dec).value), outcome);
    }
  }

  /** Every invocation is counted once, as processed or as an error, except for those counted as both. */
  lemma VerdictBumps(table: Table, req: Request, dec: Decoder, outcome: Outcome)
    requires GoodTable(table)
    ensures var v := Judge(table, req, dec, outcome);
      if CountedTwice(table, req, dec, outcome) then v.bumps == [BumpProc, BumpError]
      else v.bumps == [BumpProc] || v.bumps == [BumpError]
  {
    var found := Lookup(table, req.serviceUri, req.methodName);
    if found.Reached? { CallBumps(found.target, req.args, dec, outcome); }
  }

  /** A concrete case of that: the second result is an error type whose values are never nil. */
  lemma StructErrorsCountTwice(dec: Decoder)
    ensures var m := Method("Get", [], [Out(false, true), Out(true, false)], Fixed);
      var table := Table(ToLower, map["/service/x" := map["get" := m]]);
      var req := Request("/service/x", "get", [], "client", 1);
      GoodTable(table) && Judge(table, req, dec, Returns("r", false)).bumps == [BumpProc, BumpError]
  {
    var m := Method("Get", [], [Out(false, true), Out(true, false)], Fixed);
    var table := Table(ToLower, map["/service/x" := map["get" := m]]);
    var req := Request("/service/x", "get", [], "client", 1);
    assert ToLower("get") == "get";
    assert Lookup(table, "/service/x", "get") == Reached(m);
    VerdictBumps(table, req, dec, Returns("r", false));
  }

  /** Concrete cases: a method whose first parameter is a context type that refuses the context fails
      whatever it would do, and one whose type takes the context does not; a method with variadic
      strings never gets as far as being called. */
  lemma RefusedCallsFail(dec: Decoder, takes: bool, outcome: Outcome)
    ensures var m := Method("Get", [ContextLike("MyCtx", takes)], [Out(true, true)], Fixed);
      var table := Table(ToLower, map["/service/x" := map["get" := m]]);
      var req := Request("/service/x", "GET", [], "client", 1);
      GoodTable(table)
      && (!takes ==> Judge(table, req, dec, outcome) == FAILED)
      && (takes && outcome == Returns("", false) ==> Judge(table, req, dec, outcome).bumps == [BumpProc])
    ensures var m := Method("Put", [Plain("[]string")], [Out(true, true)], Variadic(false));
      JudgeCall(m, ["[]"], dec, outcome) == FAILED
      || JudgeCall(m, ["[]"], dec, outcome).resp.errCode == CODE_SERIALIZATION_SERVER
  {
    var m := Method("Get", [ContextLike("MyCtx", takes)], [Out(true, true)], Fixed);
    var table := Table(ToLower, map["/service/x" := map["get" := m]]);
    assert ToLower("GET") == "get";
    assert Lookup(table, "/service/x", "GET") == Reached(m);
    assert WireTypes(m) == [] && DecodeAll([], [], dec) == Some([]);
    assert Params(m, []) == [CONTEXT];
  }

  /** The reply is a success exactly when the invocation was counted as processed and nothing else. */
  lemma SuccessIsProcessed(table: Table, req: Request, dec: Decoder, outcome: Outcome)
    requires GoodTable(table)
    ensures var v := Judge(table, req, dec, outcome);
      v.resp.errCode == CODE_SERVER_SUCC <==> v.bumps == [BumpProc]
  {
  }

  // ---------- what each exit counts and answers ----------

  /** The number of leading parameters that do not come over the wire. */
  function ContextSlots(m: Method): nat {
    if |m.paramTypes| > 0 && (m.paramTypes[0].Context? || m.paramTypes[0].ContextLike?) then 1 else 0
  }

  /** Every argument decodes to its declared type. */
  ghost predicate Decodes(m: Method, args: seq<string>, dec: Decoder)
    requires |args| + ContextSlots(m) == |m.paramTypes|
  {
    forall i :: 0 <= i < |args| ==> dec(args[i], m.paramTypes[i + ContextSlots(m)]).Some?
  }

  /** The call itself goes through: the context and a variadic slice are taken, if there are any. */
  predicate CallAccepted(m: Method) {
    && (|m.paramTypes| > 0 && m.paramTypes[0].ContextLike? ==> m.paramTypes[0].takesCtx)
    && m.arity != Variadic(false)
  }

  lemma DecodesIs(m: Method, args: seq<string>, dec: Decoder)
    requires |args| + ContextSlots(m) == |m.paramTypes|
    ensures |args| == |WireTypes(m)|
    ensures DecodeAll(args, WireTypes(m), dec).Some? <==> Decodes(m, args, dec)
  {
    DecodeAllInOrder(args, WireTypes(m), dec);
    assert forall i :: 0 <= i < |args| ==> WireTypes(m)[i] == m.paramTypes[i + ContextSlots(m)];
  }

  /** The exits before the call, each with its own code: no service 501, no method 502, the wrong number
      of arguments 302, an argument that does not decode 3021. All count an error, and nothing else. */
  lemma EarlyExits(table: Table, req: Request, dec: Decoder, outcome: Outcome)
    requires GoodTable(table)
    ensures var v, uri, name := Judge(table, req, dec, outcome), req.serviceUri, table.lower(req.methodName);
      && (uri !in table.services ==> v == Verdict([BumpError], Resp(501, None)))
      && (uri in table.services && name !in table.services[uri] ==> v == Verdict([BumpError], Resp(502, None)))
      && (uri in table.services && name in table.services[uri] ==>
            var m := table.services[uri][name];
            && (|req.args| + ContextSlots(m) != |m.paramTypes| ==> v == Verdict([BumpError], Resp(302, None)))
            && (|req.args| + ContextSlots(m) == |m.paramTypes| && !Decodes(m, req.args, dec) ==>
                  v == Verdict([BumpError], Resp(3021, None))))
  {
    var found := Lookup(table, req.serviceUri, req.methodName);
    if found.Reached? && |req.args| + ContextSlots(found.target) == |found.target.paramTypes| {
      DecodesIs(found.target, req.args, dec);
    }
  }

  lemma DecodedFits(m: Method, args: seq<string>, dec: Decoder)
    requires |args| == |WireTypes(m)| && DecodeAll(args, WireTypes(m), dec).Some?
    ensures CallFits(m, Params(m, DecodeAll(args, WireTypes(m), dec).value)) <==> CallAccepted(m)
  {
    DecodeAllInOrder(args, WireTypes(m), dec);
    FitsExactly(m, DecodeAll(args, WireTypes(m), dec).value);
    assert RefusesCall(m) <==> !CallAccepted(m);
  }

  /** From the call on it is decided by whether the call is accepted. */
  lemma CallJudged(m: Method, args: seq<string>, dec: Decoder, outcome: Outcome)
      returns (params: seq<Value>)
    requires GoodReturns(m) && |args| + ContextSlots(m) == |m.paramTypes| && Decodes(m, args, dec)
    ensures JudgeCall(m, args, dec, outcome) == Settle(m, params, outcome)
    ensures CallFits(m, params) <==> CallAccepted(m)
  {
    DecodesIs(m, args, dec);
    DecodedFits(m, args, dec);
    params := Params(m, DecodeAll(args, WireTypes(m), dec).value);
  }

  /** The exits from the call on, for a method that is found with arguments that decode. A call that is
      refused or panics fails. With an error as the only result, the invocation is processed exactly
      if the method returns nil, and fails with the code of the target otherwise. With a result and an
      error that can be nil, a return is a success that carries the result, whatever the error. Where
      the error can not be nil, looking at it panics: after the result was taken and counted, if there
      is one. */
  lemma CallExits(table: Table, req: Request, dec: Decoder, outcome: Outcome)
    requires GoodTable(table)
    requires req.serviceUri in table.services && table.lower(req.methodName) in table.services[req.serviceUri]
    requires var m := table.services[req.serviceUri][table.lower(req.methodName)];
      |req.args| + ContextSlots(m) == |m.paramTypes| && Decodes(m, req.args, dec)
    ensures var m, v := table.services[req.serviceUri][table.lower(req.methodName)], Judge(table, req, dec, outcome);
      && (!CallAccepted(m) || outcome == Panics ==> v == Verdict([BumpError], Resp(503, None)))
      && forall result, nonNil | CallAccepted(m) && outcome == Returns(result, nonNil) ::
           v == if |m.returnType| == 1 then
                  (if m.returnType[0].nilable && !nonNil then Verdict([BumpProc], Resp(200, None))
                   else Verdict([BumpError], Resp(503, None)))
                else if m.returnType[1].nilable then Verdict([BumpProc], Resp(200, Some(result)))
                else Verdict([BumpProc, BumpError], Resp(503, Some(result)))
  {
    var m := table.services[req.serviceUri][table.lower(req.methodName)];
    assert Lookup(table, req.serviceUri, req.methodName) == Reached(m);
    var _ := CallJudged(m, req.args, dec, outcome);
  }

  // ---------- the handler, one invocation at a time ----------

  type Counts = map<(string, string), map<string, nat>>

  function Get(counts: Counts, key: (string, string), name: string): nat {
    if key in counts && name in counts[key] then counts[key][name] else 0
  }

  class InvocationHandler {
    const instances: Table
    const moaStat: MoaStat
    var invokesPerClient: Counts

    constructor (instances: Table, moaStat: MoaStat)
      ensures this.instances == instances && this.moaStat == moaStat && invokesPerClient == map[]
    {
      this.instances := instances;
      this.moaStat := moaStat;
      invokesPerClient := map[];
    }

    /** Finds or makes the counter of a client and method and adds one. */
    method CountInvoke(serviceUri: string, source: string, name: string)
      modifies this
      ensures forall key, n ::
        Get(invokesPerClient, key, n)
          == Get(old(invokesPerClient), key, n) + if key == (serviceUri, source) && n == name then 1 else 0
    {
      var key := (serviceUri, source);
      if key !in invokesPerClient {
        invokesPerClient := invokesPerClient[key := map[]];
      }
      var flow := invokesPerClient[key];
      if name !in flow {
        flow := flow[name := 0];
      }
      flow := flow[name := flow[name] + 1];
      invokesPerClient := invokesPerClient[key := flow];
    }

    /** The counters of a service, client by client: every client once, each with its own table. It
        panics exactly for a service without methods, whose table of clients is never made. */
    method ListInvokes(servicename: string) returns (panicked: bool, clients: seq<(string, map<string, nat>)>)
      ensures panicked <==> servicename in instances.services && instances.services[servicename] == map[]
      ensures servicename !in instances.services ==> clients == []
      ensures servicename in instances.services && !panicked ==>
        (forall c :: c in clients <==> (servicename, c.0) in invokesPerClient && invokesPerClient[(servicename, c.0)] == c.1)
      ensures forall i, j :: 0 <= i < j < |clients| ==> clients[i].0 != clients[j].0
    {
      panicked, clients := false, [];
      if servicename !in instances.services { return; }
      if instances.services[servicename] == map[] { return true, []; }
      var rest := invokesPerClient.Keys;
      while rest != {}
        invariant rest <= invokesPerClient.Keys
        invariant forall c :: c in clients <==>
          (servicename, c.0) in invokesPerClient.Keys - rest && invokesPerClient[(servicename, c.0)] == c.1
        invariant forall i, j :: 0 <= i < j < |clients| ==> clients[i].0 != clients[j].0
        decreases rest
      {
        var key :| key in rest;
        rest := rest - {key};
        if key.0 == servicename {
          assert forall i :: 0 <= i < |clients| ==> clients[i] in clients;
          clients := clients + [(key.1, invokesPerClient[key])];
        }
      }
    }

    /** The decoding loop; None stands for the error that ends it. */
    method DecodeArgs(args: seq<string>, types: seq<Type>, dec: Decoder) returns (values: Option<seq<Value>>)
      requires |args| == |types|
      ensures values == DecodeAll(args, types, dec)
    {
      var params: seq<Value> := [];
      for i := 0 to |args|
        invariant DecodeAll(args[..i], types[..i], dec) == Some(params)
      {
        assert args[..i + 1][..i] == args[..i] && types[..i + 1][..i] == types[..i];
        var payload := dec(args[i], types[i]);
        if payload.None? {
          DecodeAllInOrder(args, types, dec);
          return None;
        }
        params := params + [Value(types[i], payload.value)];
      }
      assert args[..|args|] == args && types[..|args|] == types;
      return Some(params);
    }

    /** Calls the method and counts the result; panicked tells that the deferred recovery takes over. */
    method CallAndCount(m: Method, params: seq<Value>, outcome: Outcome) returns (panicked: bool, resp: Resp)
      requires GoodReturns(m)
      modifies moaStat`proc, moaStat`error
      ensures var v := Settle(m, params, outcome);
        && moaStat.proc == (if BumpProc in v.bumps then old(moaStat.proc).Incr(1) else old(moaStat.proc))
        && moaStat.error == (if BumpError in v.bumps && !panicked then old(moaStat.error).Incr(1)
                             else old(moaStat.error))
        && (panicked ==> BumpError in v.bumps)
        && v.resp == (if panicked then resp.(errCode := CODE_INVOCATION_TARGET) else resp)
    {
      resp := Resp(0, None);
      if !CallFits(m, params) || outcome.Panics? {
        return true, resp;
      }
      if |m.returnType| <= 1 {
        if !m.returnType[0].nilable {
          return true, resp;
        }
        if outcome.lastNonNil {
          moaStat.IncrError();
          return false, Resp(CODE_INVOCATION_TARGET, None);
        }
      }
      moaStat.IncrProc();
      resp := Resp(CODE_SERVER_SUCC, if |m.returnType| > 1 then Some(outcome.result) else None);
      if |m.returnType| > 1 && !m.returnType[1].nilable {
        return true, resp;
      }
      return false, resp;
    }

    /** From the parameter types to the counted result. */
    method Dispatch(m: Method, args: seq<string>, dec: Decoder, outcome: Outcome)
      returns (panicked: bool, resp: Resp)
      requires GoodReturns(m)
      modifies moaStat`proc, moaStat`error
      ensures var v := JudgeCall(m, args, dec, outcome);
        && moaStat.proc == (if BumpProc in v.bumps then old(moaStat.proc).Incr(1) else old(moaStat.proc))
        && moaStat.error == (if BumpError in v.bumps && !panicked then old(moaStat.error).Incr(1)
                             else old(moaStat.error))
        && (panicked ==> BumpError in v.bumps)
        && v.resp == (if panicked then resp.(errCode := CODE_INVOCATION_TARGET) else resp)
    {
      var paramTypes := m.paramTypes;
      var params := [];
      if |m.paramTypes| > 0 {
        if m.paramTypes[0].ImplementsContext() {
          params := params + [CONTEXT];
          paramTypes := paramTypes[1..];
        }
      }
      assert paramTypes == WireTypes(m) && params == Params(m, []);
      if |args| != |paramTypes| {
        moaStat.IncrError();
        return false, Resp(CODE_SERIALIZATION, None);
      }
      var values := DecodeArgs(args, paramTypes, dec);
      if values.None? {
        moaStat.IncrError();
        return false, Resp(CODE_SERIALIZATION_SERVER, None);
      }
      assert params + values.value == Params(m, values.value);
      panicked, resp := CallAndCount(m, params + values.value, outcome);
    }

    /** Invoke. cost is the time it took; replies are the calls made to onCallback. */
    method Invoke(req: Request, dec: Decoder, outcome: Outcome, cost: int) returns (replies: seq<Resp>)
      requires GoodTable(instances)
      modifies this, moaStat
      ensures var v := Judge(instances, req, dec, outcome);
        && moaStat.recv == old(moaStat.recv).Incr(1)
        && moaStat.proc == (if BumpProc in v.bumps then old(moaStat.proc).Incr(1) else old(moaStat.proc))
        && moaStat.error == (if BumpError in v.bumps then old(moaStat.error).Incr(1) else old(moaStat.error))
        && replies == (if cost < req.timeout then [v.resp] else [])
      ensures var found := Lookup(instances, req.serviceUri, req.methodName);
        forall key, n :: Get(invokesPerClient, key, n) == Get(old(invokesPerClient), key, n)
          + if found.Reached? && key == (req.serviceUri, req.source) && n == found.target.name then 1 else 0
    {
      moaStat.IncrRecv();
      var resp := Resp(0, None);
      var panicked := false;
      if req.serviceUri !in instances.services {
        moaStat.IncrError();
        resp := Resp(CODE_SERVICE_NOT_FOUND, None);
      } else if instances.lower(req.methodName) !in instances.services[req.serviceUri] {
        moaStat.IncrError();
        resp := Resp(CODE_METHOD_NOT_FOUND, None);
      } else {
        var m := instances.services[req.serviceUri][instances.lower(req.methodName)];
        CountInvoke(req.serviceUri, req.source, m.name);
        panicked, resp := Dispatch(m, req.args, dec, outcome);
      }
      // the deferred function
      if panicked {
        moaStat.IncrError();
        resp := resp.(errCode := CODE_INVOCATION_TARGET);
      }
      replies := if cost >= req.timeout then [] else [resp];
    }
  }
}
