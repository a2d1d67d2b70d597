/** Properties carried by a context (moa_codec.go). Contexts share the Go map they resolve to, so a
    write through one is seen through all others; the maps are kept here on an explicit heap. */
module Properties {
  import opened Wrappers

  const KEY_MOA_PROPERTIES := "moa.props"

  /** What ctx.Value may hold: a map, a nil map, or something that is no map. */
  datatype Content = Props(id: nat) | NilProps | NoMap

  /** A context: a root, or a parent with one more value. */
  datatype Ctx = Root | WithValue(parent: Ctx, key: string, content: Content)

  type Heap = seq<map<string, string>>

  /** ctx.Value(KEY_MOA_PROPERTIES): the innermost value under the key. */
  function Resolve(ctx: Ctx): Option<Content> {
    match ctx
    case Root => None
    case WithValue(parent, key, content) =>
      if key == KEY_MOA_PROPERTIES then Some(content) else Resolve(parent)
  }

  /** The map a context resolves to, if it is one. */
  function MapOf(ctx: Ctx): Option<nat> {
    match Resolve(ctx)
    case Some(Props(id)) => Some(id)
    case _ => None
  }

  predicate InHeap(heap: Heap, ctx: Ctx) {
    match ctx
    case Root => true
    case WithValue(parent, _, content) => (content.Props? ==> content.id < |heap|) && InHeap(heap, parent)
  }

  lemma {:induction false} MapOfInHeap(heap: Heap, ctx: Ctx)
    requires InHeap(heap, ctx)
    ensures MapOf(ctx).Some? ==> MapOf(ctx).value < |heap|
  {
    if ctx.WithValue? { MapOfInHeap(heap, ctx.parent); }
  }

  // ---------- the operations ----------

  /** Reads a property; a missing map reads as empty. */
  function GetMoaProperty(heap: Heap, ctx: Ctx, key: string): Option<string>
    requires InHeap(heap, ctx)
  {
    MapOfInHeap(heap, ctx);
    match MapOf(ctx)
    case Some(id) => if key in heap[id] then Some(heap[id][key]) else None
    case None => None
  }

  /** Writes a property, into the map the context resolves to or into a new one under a new context.
      None stands for the panic on writing to a nil map. */
  function AttachMoaProperty(heap: Heap, ctx: Ctx, key: string, val: string): Option<(Heap, Ctx)>
    requires InHeap(heap, ctx)
  {
    MapOfInHeap(heap, ctx);
    match Resolve(ctx)
    case Some(Props(id)) => Some((heap[id := heap[id][key := val]], ctx))
    case Some(NilProps) => None
    case _ => Some((heap + [map[key := val]], WithValue(ctx, KEY_MOA_PROPERTIES, Props(|heap|))))
  }

  function DetachMoaProperty(heap: Heap, ctx: Ctx, key: string): Heap
    requires InHeap(heap, ctx)
  {
    MapOfInHeap(heap, ctx);
    match MapOf(ctx)
    case Some(id) => heap[id := heap[id] - {key}]
    case None => heap
  }

  /** Injects a span: writes its pairs into the map the context resolves to, or into a new one, and
      always answers with a new context that holds that map. None stands for the panic on a nil map. */
  function WithSpanCtx(heap: Heap, ctx: Ctx, span: map<string, string>): Option<(Heap, Ctx)>
    requires InHeap(heap, ctx)
  {
    MapOfInHeap(heap, ctx);
    match Resolve(ctx)
    case Some(Props(id)) =>
      Some((heap[id := heap[id] + span], WithValue(ctx, KEY_MOA_PROPERTIES, Props(id))))
    case Some(NilProps) =>
      if span == map[] then Some((heap, WithValue(ctx, KEY_MOA_PROPERTIES, NilProps))) else None
    case _ => Some((heap + [span], WithValue(ctx, KEY_MOA_PROPERTIES, Props(|heap|))))
  }

  // ---------- runs over a growing tree of contexts ----------

  /** ctxs lists all contexts made so far; the log records every write and delete in order. */
  datatype State = State(heap: Heap, ctxs: seq<Ctx>, log: seq<Entry>)

  /** In map id, the keys of span were written, or one key was deleted. */
  datatype Entry = Wrote(id: nat, span: map<string, string>) | Deleted(id: nat, key: string)

  datatype Op =
    | Receive(props: Option<map<string, string>>)   // a request's context; None when it has no properties
    | Derive(c: nat, key: string, content: Content) // context.WithValue, under whatever key
    | Attach(c: nat, key: string, val: string)
    | Detach(c: nat, key: string)
    | Span(c: nat, span: map<string, string>)

  predicate Allowed(s: State, op: Op) {
    match op
    case Receive(_) => true
    case Derive(c, _, content) => c < |s.ctxs| && (content.Props? ==> content.id < |s.heap|)
    case Attach(c, _, _) => c < |s.ctxs|
    case Detach(c, _) => c < |s.ctxs|
    case Span(c, _) => c < |s.ctxs|
  }

  ghost predicate Valid(s: State) {
    forall c :: 0 <= c < |s.ctxs| ==> InHeap(s.heap, s.ctxs[c])
  }

  /** The entry a successful write adds: to the map it went to, old or new. */
  function WriteEntry(s: State, c: nat, span: map<string, string>): Entry
    requires c < |s.ctxs|
  {
    Wrote(match MapOf(s.ctxs[c]) case Some(id) => id case None => |s.heap|, span)
  }

  /** The state after an operation; a panic leaves it as it was. */
  function Do(s: State, op: Op): State
    requires Valid(s) && Allowed(s, op)
  {
    match op
    case Receive(Some(props)) =>
      State(s.heap + [props], s.ctxs + [WithValue(Root, KEY_MOA_PROPERTIES, Props(|s.heap|))],
            s.log + [Wrote(|s.heap|, props)])
    case Receive(None) => s.(ctxs := s.ctxs + [WithValue(Root, KEY_MOA_PROPERTIES, NilProps)])
    case Derive(c, key, content) => s.(ctxs := s.ctxs + [WithValue(s.ctxs[c], key, content)])
    case Attach(c, key, val) =>
      (match AttachMoaProperty(s.heap, s.ctxs[c], key, val)
       case Some((heap, ctx)) => State(heap, s.ctxs + [ctx], s.log + [WriteEntry(s, c, map[key := val])])
       case None => s)
    case Detach(c, key) =>
      (match MapOf(s.ctxs[c])
       case Some(id) => s.(heap := DetachMoaProperty(s.heap, s.ctxs[c], key), log := s.log + [Deleted(id, key)])
       case None => s)
    case Span(c, span) =>
      (match WithSpanCtx(s.heap, s.ctxs[c], span)
       case Some((heap, ctx)) =>
         State(heap, s.ctxs + [ctx],
               if Resolve(s.ctxs[c]) == Some(NilProps) then s.log else s.log + [WriteEntry(s, c, span)])
       case None => s)
  }

  /** The flat model: what the log says about a key of a map. */
  function Latest(log: seq<Entry>, id: nat, key: string): Option<string> {
    if log == [] then None
    else
      var before := log[..|log| - 1];
      match log[|log| - 1]
      case Wrote(i, span) => if i == id && key in span then Some(span[key]) else Latest(before, id, key)
      case Deleted(i, k) => if i == id && k == key then None else Latest(before, id, key)
  }

  function Lookup(m: map<string, string>, key: string): Option<string> {
    if key in m then Some(m[key]) else None
  }

  /** Every map holds what the log says, and the log speaks only of maps that exist. */
  ghost predicate Refines(s: State) {
    && (forall id, key :: 0 <= id < |s.heap| ==> Lookup(s.heap[id], key) == Latest(s.log, id, key))
    && (forall id, key :: id >= |s.heap| ==> Latest(s.log, id, key) == None)
  }

  lemma {:induction false} InHeapGrows(heap: Heap, heap': Heap, ctx: Ctx)
    requires InHeap(heap, ctx) && |heap| <= |heap'|
    ensures InHeap(heap', ctx)
  {
    if ctx.WithValue? { InHeapGrows(heap, heap', ctx.parent); }
  }

  lemma LatestAfter(log: seq<Entry>, e: Entry, id: nat, key: string)
    ensures Latest(log + [e], id, key)
         == match e
            case Wrote(i, span) => if i == id && key in span then Some(span[key]) else Latest(log, id, key)
            case Deleted(i, k) => if i == id && k == key then None else Latest(log, id, key)
  {
    assert (log + [e])[..|log|] == log;
  }

  lemma WriteRefines(s: State, id: nat, span: map<string, string>, ctxs: seq<Ctx>)
    requires Refines(s) && id < |s.heap|
    ensures Refines(State(s.heap[id := s.heap[id] + span], ctxs, s.log + [Wrote(id, span)]))
  {
    var s' := State(s.heap[id := s.heap[id] + span], ctxs, s.log + [Wrote(id, span)]);
    forall i: nat, key
      ensures Latest(s'.log, i, key) == if i == id && key in span then Some(span[key]) else Latest(s.log, i, key) {
      LatestAfter(s.log, Wrote(id, span), i, key);
    }
  }

  lemma NewMapRefines(s: State, m: map<string, string>, ctxs: seq<Ctx>)
    requires Refines(s)
    ensures Refines(State(s.heap + [m], ctxs, s.log + [Wrote(|s.heap|, m)]))
  {
    var s' := State(s.heap + [m], ctxs, s.log + [Wrote(|s.heap|, m)]);
    forall i: nat, key
      ensures Latest(s'.log, i, key) == if i == |s.heap| && key in m then Some(m[key]) else Latest(s.log, i, key) {
      LatestAfter(s.log, Wrote(|s.heap|, m), i, key);
    }
  }

  lemma DeleteRefines(s: State, id: nat, key: string)
    requires Refines(s) && id < |s.heap|
    ensures Refines(s.(heap := s.heap[id := s.heap[id] - {key}], log := s.log + [Deleted(id, key)]))
  {
    var s' := s.(heap := s.heap[id := s.heap[id] - {key}], log := s.log + [Deleted(id, key)]);
    forall i: nat, k
      ensures Latest(s'.log, i, k) == if i == id && k == key then None else Latest(s.log, i, k) {
      LatestAfter(s.log, Deleted(id, key), i, k);
    }
  }

  lemma DoKeepsValid(s: State, op: Op)
    requires Valid(s) && Allowed(s, op)
    ensures Valid(Do(s, op))
  {
    var s' := Do(s, op);
    if op.Attach? || op.Detach? || op.Span? { MapOfInHeap(s.heap, s.ctxs[op.c]); }
    assert |s.heap| <= |s'.heap|;
    forall c | 0 <= c < |s.ctxs| ensures InHeap(s'.heap, s.ctxs[c]) { InHeapGrows(s.heap, s'.heap, s.ctxs[c]); }
  }

  lemma AttachRefines(s: State, op: Op)
    requires Valid(s) && Allowed(s, op) && op.Attach? && Refines(s)
    ensures Refines(Do(s, op))
  {
    var ctx, pair, s' := s.ctxs[op.c], map[op.key := op.val], Do(s, op);
    MapOfInHeap(s.heap, ctx);
    match Resolve(ctx) {
      case Some(Props(id)) =>
        assert s.heap[id][op.key := op.val] == s.heap[id] + pair;
        WriteRefines(s, id, pair, s'.ctxs);
      case Some(NilProps) =>
      case _ => NewMapRefines(s, pair, s'.ctxs);
    }
  }

  lemma SpanRefines(s: State, op: Op)
    requires Valid(s) && Allowed(s, op) && op.Span? && Refines(s)
    ensures Refines(Do(s, op))
  {
    var ctx, s' := s.ctxs[op.c], Do(s, op);
    MapOfInHeap(s.heap, ctx);
    match Resolve(ctx) {
      case Some(Props(id)) => WriteRefines(s, id, op.span, s'.ctxs);
      case Some(NilProps) =>
      case _ => NewMapRefines(s, op.span, s'.ctxs);
    }
  }

  lemma DoRefines(s: State, op: Op)
    requires Valid(s) && Allowed(s, op) && Refines(s)
    ensures Refines(Do(s, op))
  {
    match op {
      case Receive(Some(props)) => NewMapRefines(s, props, Do(s, op).ctxs);
      case Receive(None) =>
      case Derive(_, _, _) =>
      case Attach(_, _, _) => AttachRefines(s, op);
      case Detach(c, key) =>
        MapOfInHeap(s.heap, s.ctxs[c]);
        if MapOf(s.ctxs[c]).Some? { DeleteRefines(s, MapOf(s.ctxs[c]).value, key); }
      case Span(_, _) => SpanRefines(s, op);
    }
  }

  /** A run from nothing. */
  ghost predicate Runs(s: State, ops: seq<Op>)
    requires Valid(s)
    decreases |ops|
  {
    ops == [] || (Allowed(s, ops[0]) && (DoKeepsValid(s, ops[0]); Runs(Do(s, ops[0]), ops[1..])))
  }

  ghost function After(s: State, ops: seq<Op>): State
    requires Valid(s) && Runs(s, ops)
    decreases |ops|
  {
    if ops == [] then s else
      DoKeepsValid(s, ops[0]);
      After(Do(s, ops[0]), ops[1..])
  }

  const EMPTY := State([], [], [])

  lemma {:induction false} RunRefines(s: State, ops: seq<Op>)
    requires Valid(s) && Refines(s) && Runs(s, ops)
    ensures Valid(After(s, ops)) && Refines(After(s, ops))
    decreases |ops|
  {
    if ops != [] {
      DoKeepsValid(s, ops[0]);
      DoRefines(s, ops[0]);
      RunRefines(Do(s, ops[0]), ops[1..]);
    }
  }

  /** After any sequence of operations on any tree of contexts, a read through a context gives the
      latest write, by any context that resolves to the same map, that no delete has followed. */
  lemma ReadsSeeTheLatestWrite(ops: seq<Op>, c: nat, key: string)
    requires Runs(EMPTY, ops) && c < |After(EMPTY, ops).ctxs|
    ensures Valid(After(EMPTY, ops))
    ensures var s := After(EMPTY, ops);
      GetMoaProperty(s.heap, s.ctxs[c], key)
        == match MapOf(s.ctxs[c])
           case Some(id) => Latest(s.log, id, key)
           case None => None
  {
    RunRefines(EMPTY, ops);
    var s := After(EMPTY, ops);
    MapOfInHeap(s.heap, s.ctxs[c]);
    if MapOf(s.ctxs[c]).Some? {
      var id := MapOf(s.ctxs[c]).value;
      assert Lookup(s.heap[id], key) == Latest(s.log, id, key);
    }
  }

  /** An operation through one context changes no read through a context that resolves elsewhere. */
  lemma OthersAreUnaffected(s: State, op: Op, c: nat, key: string)
    requires Valid(s) && Allowed(s, op) && c < |s.ctxs|
    requires op.Attach? || op.Detach? || op.Span? ==> MapOf(s.ctxs[op.c]) == None || MapOf(s.ctxs[op.c]) != MapOf(s.ctxs[c])
    ensures Valid(Do(s, op)) && c < |Do(s, op).ctxs| && Do(s, op).ctxs[c] == s.ctxs[c]
    ensures GetMoaProperty(Do(s, op).heap, s.ctxs[c], key) == GetMoaProperty(s.heap, s.ctxs[c], key)
  {
    DoKeepsValid(s, op);
    MapOfInHeap(s.heap, s.ctxs[c]);
    if op.Attach? || op.Detach? || op.Span? { MapOfInHeap(s.heap, s.ctxs[op.c]); }
  }

  /** The panic on a write happens exactly on a context whose properties are a nil map, as that of
      a request without properties. */
  lemma AttachPanicsExactly(heap: Heap, ctx: Ctx, key: string, val: string)
    requires InHeap(heap, ctx)
    ensures AttachMoaProperty(heap, ctx, key, val) == None <==> Resolve(ctx) == Some(NilProps)
    ensures AttachMoaProperty(heap, ctx, key, val).Some? ==>
      var (heap', ctx') := AttachMoaProperty(heap, ctx, key, val).value;
      InHeap(heap', ctx') && GetMoaProperty(heap', ctx', key) == Some(val)
  {
    MapOfInHeap(heap, ctx);
    if Resolve(ctx) != Some(NilProps) {
      var (heap', ctx') := AttachMoaProperty(heap, ctx, key, val).value;
      InHeapGrows(heap, heap', ctx);
    }
  }

  // ---------- what a context sees ----------

  /** Which value a context reads: values under other keys are passed over, and the innermost one under
      the property key decides, by its map if it is one and as empty otherwise. */
  lemma ReadsThrough(heap: Heap, ctx: Ctx, k: string, content: Content, key: string)
    requires InHeap(heap, WithValue(ctx, k, content))
    ensures k != "moa.props" ==>
      GetMoaProperty(heap, WithValue(ctx, k, content), key) == GetMoaProperty(heap, ctx, key)
    ensures k == "moa.props" ==>
      GetMoaProperty(heap, WithValue(ctx, k, content), key)
        == if content.Props? && key in heap[content.id] then Some(heap[content.id][key]) else None
    ensures GetMoaProperty(heap, Root, key) == None
  {
  }

  /** Attaching, by reads alone: the value is read back through the context returned, every other key
      reads there as it did, and a context that was attached to in place reads the same itself. */
  lemma AttachIs(heap: Heap, ctx: Ctx, key: string, val: string, other: string)
    requires InHeap(heap, ctx) && AttachMoaProperty(heap, ctx, key, val).Some?
    ensures var (heap', ctx') := AttachMoaProperty(heap, ctx, key, val).value;
      && InHeap(heap', ctx') && InHeap(heap', ctx)
      && GetMoaProperty(heap', ctx', key) == Some(val)
      && (other != key ==> GetMoaProperty(heap', ctx', other) == GetMoaProperty(heap, ctx, other))
      && (ctx' == ctx || GetMoaProperty(heap', ctx, other) == GetMoaProperty(heap, ctx, other))
  {
    MapOfInHeap(heap, ctx);
    var (heap', ctx') := AttachMoaProperty(heap, ctx, key, val).value;
    InHeapGrows(heap, heap', ctx);
  }

  /** A context with a map is attached to in place, one without gets a new context. */
  lemma {:induction false} AttachesInPlace(heap: Heap, ctx: Ctx, key: string, val: string, k: string, content: Content)
    requires InHeap(heap, WithValue(ctx, k, content))
    ensures k == "moa.props" && content.Props? ==>
      AttachMoaProperty(heap, WithValue(ctx, k, content), key, val)
        == Some((heap[content.id := heap[content.id][key := val]], WithValue(ctx, k, content)))
    ensures k == "moa.props" && content.NoMap? ==>
      AttachMoaProperty(heap, WithValue(ctx, k, content), key, val)
        == Some((heap + [map[key := val]], WithValue(WithValue(ctx, k, content), "moa.props", Props(|heap|))))
    ensures AttachMoaProperty(heap, Root, key, val)
         == Some((heap + [map[key := val]], WithValue(Root, "moa.props", Props(|heap|))))
  {
  }

  /** Detaching, by reads alone: the key is gone and every other key reads as it did. */
  lemma DetachIs(heap: Heap, ctx: Ctx, key: string, other: string)
    requires InHeap(heap, ctx)
    ensures InHeap(DetachMoaProperty(heap, ctx, key), ctx)
    ensures GetMoaProperty(DetachMoaProperty(heap, ctx, key), ctx, key) == None
    ensures other != key ==>
      GetMoaProperty(DetachMoaProperty(heap, ctx, key), ctx, other) == GetMoaProperty(heap, ctx, other)
  {
    MapOfInHeap(heap, ctx);
    InHeapGrows(heap, DetachMoaProperty(heap, ctx, key), ctx);
  }

  /** Injecting a span, by reads alone: its pairs are read through the context returned, and every other
      key reads there as it did. It panics exactly on a nil map that something is written to. */
  lemma SpanIs(heap: Heap, ctx: Ctx, span: map<string, string>, key: string)
    requires InHeap(heap, ctx)
    ensures WithSpanCtx(heap, ctx, span) == None <==> Resolve(ctx) == Some(NilProps) && span != map[]
    ensures WithSpanCtx(heap, ctx, span).Some? ==>
      var (heap', ctx') := WithSpanCtx(heap, ctx, span).value;
      && InHeap(heap', ctx')
      && GetMoaProperty(heap', ctx', key) == if key in span then Some(span[key]) else GetMoaProperty(heap, ctx, key)
  {
    MapOfInHeap(heap, ctx);
    if WithSpanCtx(heap, ctx, span).Some? {
      InHeapGrows(heap, WithSpanCtx(heap, ctx, span).value.0, ctx);
    }
  }

  // ---------- the functions of the package, on the maps in place ----------

  /** All property maps of the process. */
  class PropertyMaps {
    var maps: Heap

    constructor ()
      ensures maps == []
    {
      maps := [];
    }

    /** False is the panic. */
    method Attach(ctx: Ctx, key: string, val: string) returns (ok: bool, result: Ctx)
      requires InHeap(maps, ctx)
      modifies this
      ensures ok <==> AttachMoaProperty(old(maps), ctx, key, val).Some?
      ensures ok ==> AttachMoaProperty(old(maps), ctx, key, val) == Some((maps, result))
      ensures !ok ==> maps == old(maps)
    {
      MapOfInHeap(maps, ctx);
      var props := Resolve(ctx);
      if props.Some? {
        if props.value.NilProps? { return false, ctx; }
        if props.value.Props? {
          var id := props.value.id;
          maps := maps[id := maps[id][key := val]];
          return true, ctx;
        }
      }
      var prop := map[key := val];
      result := WithValue(ctx, KEY_MOA_PROPERTIES, Props(|maps|));
      maps := maps + [prop];
      ok := true;
    }

    method Detach(ctx: Ctx, key: string)
      requires InHeap(maps, ctx)
      modifies this
      ensures maps == DetachMoaProperty(old(maps), ctx, key)
    {
      MapOfInHeap(maps, ctx);
      var props := Resolve(ctx);
      if props.Some? && props.value.Props? {
        var id := props.value.id;
        maps := maps[id := maps[id] - {key}];
      }
    }
  }
}
