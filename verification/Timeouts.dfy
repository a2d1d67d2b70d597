/** The arithmetic of processing timeouts: from the configuration to the test made before an
    invocation is queued (option.go, moa_codec.go, application.go). Times are int64 nanoseconds. */
module Timeouts {
  import opened Wrappers

  const SECOND := 1_000_000_000
  const MILLISECOND := 1_000_000
  const MAX_INT64 := 0x7FFF_FFFF_FFFF_FFFF
  const DEFAULT_SECONDS := 5
  const DEFAULT_IDLE_SECONDS := 300
  const MIN_FUTURES := 1_000_000

  predicate Int64(x: int) { -MAX_INT64 - 1 <= x <= MAX_INT64 }

  /** Two's complement wrap-around. */
  function Wrap64(x: int): int {
    (x + MAX_INT64 + 1) % 0x1_0000_0000_0000_0000 - MAX_INT64 - 1
  }

  lemma WrapInRange(x: int)
    ensures Int64(Wrap64(x))
    ensures Wrap64(x) == x <==> Int64(x)
  {
  }

  /** It differs from the true value by a multiple of 2^64. */
  lemma WrapIsCongruent(x: int) returns (k: int)
    ensures Wrap64(x) == x + k * 0x1_0000_0000_0000_0000
  {
    k := -((x + MAX_INT64 + 1) / 0x1_0000_0000_0000_0000);
  }

  /** Go's integer division truncates toward zero. */
  function Quotient(a: int, b: int): int
    requires b > 0
  {
    if a >= 0 then a / b else -((-a) / b)
  }

  // ---------- LoadConfiguration ----------

  /** ProcessTimeout as configured, in seconds, and as used, in nanoseconds. */
  function ProcessTimeout(configured: int): int {
    Wrap64((if configured <= 0 then DEFAULT_SECONDS else configured) * SECOND)
  }

  /** The settings of a cluster that LoadConfiguration looks at. */
  datatype Cluster = Cluster(
    processTimeout: int, idleTimeout: int, maxDispatcherSize: int, workerPoolSize: int,
    readBufferSize: int, writeBufferSize: int, writeChannelSize: int, readChannelSize: int, futureSize: int)

  /** A setting above its lower limit is kept, any other becomes the default. */
  predicate KeptOr(configured: int, used: int, limit: int, default: int) {
    used == if configured > limit then configured else default
  }

  /** Every size is kept if it is usable and defaulted on its own if it is not. */
  predicate SizesCompleted(configured: Cluster, cluster: Cluster) {
    && KeptOr(configured.maxDispatcherSize, cluster.maxDispatcherSize, 0, 8000)
    && KeptOr(configured.workerPoolSize, cluster.workerPoolSize, 0, cluster.maxDispatcherSize)
    && KeptOr(configured.readBufferSize, cluster.readBufferSize, 0, 16 * 1024)
    && KeptOr(configured.writeBufferSize, cluster.writeBufferSize, 0, 16 * 1024)
    && KeptOr(configured.writeChannelSize, cluster.writeChannelSize, 0, 1000)
    && KeptOr(configured.readChannelSize, cluster.readChannelSize, 0, 1000)
    && KeptOr(configured.futureSize, cluster.futureSize, MIN_FUTURES, MIN_FUTURES)
  }

  method DefaultSizes(configured: Cluster) returns (cluster: Cluster)
    ensures SizesCompleted(configured, cluster)
    ensures cluster.processTimeout == configured.processTimeout && cluster.idleTimeout == configured.idleTimeout
  {
    cluster := configured;
    if cluster.maxDispatcherSize <= 0 { cluster := cluster.(maxDispatcherSize := 8000); }
    if cluster.readBufferSize <= 0 { cluster := cluster.(readBufferSize := 16 * 1024); }
    if cluster.writeBufferSize <= 0 { cluster := cluster.(writeBufferSize := 16 * 1024); }
    if cluster.writeChannelSize <= 0 { cluster := cluster.(writeChannelSize := 1000); }
    if cluster.readChannelSize <= 0 { cluster := cluster.(readChannelSize := 1000); }
    if cluster.workerPoolSize <= 0 { cluster := cluster.(workerPoolSize := cluster.maxDispatcherSize); }
    if cluster.futureSize <= MIN_FUTURES { cluster := cluster.(futureSize := MIN_FUTURES); }
  }

  /** Fills in all defaults of one cluster and turns its seconds into nanoseconds. */
  method WithDefaults(configured: Cluster) returns (cluster: Cluster)
    ensures Completed(configured, cluster)
  {
    cluster := DefaultSizes(configured);
    if cluster.idleTimeout <= 0 { cluster := cluster.(idleTimeout := DEFAULT_IDLE_SECONDS); }
    cluster := cluster.(idleTimeout := Wrap64(cluster.idleTimeout * SECOND));
    if cluster.processTimeout <= 0 { cluster := cluster.(processTimeout := DEFAULT_SECONDS); }
    cluster := cluster.(processTimeout := Wrap64(cluster.processTimeout * SECOND));
  }

  /** The timeouts are converted and the sizes completed. */
  predicate Completed(configured: Cluster, cluster: Cluster) {
    && cluster.processTimeout == ProcessTimeout(configured.processTimeout)
    && cluster.idleTimeout
         == Wrap64((if configured.idleTimeout <= 0 then DEFAULT_IDLE_SECONDS else configured.idleTimeout) * SECOND)
    && SizesCompleted(configured, cluster)
  }

  method LoadConfiguration(configured: map<string, Cluster>) returns (clusters: map<string, Cluster>)
    ensures clusters.Keys == configured.Keys
    ensures forall name :: name in clusters ==> Completed(configured[name], clusters[name])
  {
    clusters := map[];
    var rest := configured.Keys;
    while rest != {}
      invariant rest <= configured.Keys && clusters.Keys == configured.Keys - rest
      invariant forall name :: name in clusters ==> Completed(configured[name], clusters[name])
      decreases rest
    {
      var name :| name in rest;
      var cluster := WithDefaults(configured[name]);
      clusters := clusters[name := cluster];
      rest := rest - {name};
    }
  }

  /** A setting as used, from the one configured: itself if positive, else the default. */
  function Or(configured: int, default: int): int { if configured > 0 then configured else default }

  /** All settings in numbers: the timeouts default to 5 seconds and 5 minutes, the dispatcher to 8000,
      the pool to the dispatcher's size, the buffers to 16384 bytes, the channels to 1000, and the
      future table has at least a million places. */
  lemma SettingsInNumbers(configured: Cluster, cluster: Cluster)
    requires Completed(configured, cluster)
    ensures cluster.processTimeout == Wrap64(Or(configured.processTimeout, 5) * 1_000_000_000)
    ensures cluster.idleTimeout == Wrap64(Or(configured.idleTimeout, 300) * 1_000_000_000)
    ensures cluster.maxDispatcherSize == Or(configured.maxDispatcherSize, 8000)
    ensures cluster.workerPoolSize == Or(configured.workerPoolSize, Or(configured.maxDispatcherSize, 8000))
    ensures cluster.readBufferSize == Or(configured.readBufferSize, 16384)
    ensures cluster.writeBufferSize == Or(configured.writeBufferSize, 16384)
    ensures cluster.writeChannelSize == Or(configured.writeChannelSize, 1000)
    ensures cluster.readChannelSize == Or(configured.readChannelSize, 1000)
    ensures cluster.futureSize == if configured.futureSize > 1_000_000 then configured.futureSize else 1_000_000
  {
  }

  /** All sizes are positive and the future table has its minimum size. */
  predicate Usable(c: Cluster) {
    && c.maxDispatcherSize > 0 && c.workerPoolSize > 0 && c.readBufferSize > 0 && c.writeBufferSize > 0
    && c.writeChannelSize > 0 && c.readChannelSize > 0 && c.futureSize >= MIN_FUTURES
  }

  /** A completed cluster can be used; one whose sizes could be used keeps them all; and completing
      the sizes of a completed cluster changes none. */
  lemma CompletedIsUsable(configured: Cluster, cluster: Cluster, again: Cluster)
    requires Completed(configured, cluster) && SizesCompleted(cluster, again)
    ensures Usable(cluster)
    ensures Usable(configured) ==>
      cluster == configured.(processTimeout := cluster.processTimeout, idleTimeout := cluster.idleTimeout)
    ensures again == cluster.(processTimeout := again.processTimeout, idleTimeout := again.idleTimeout)
  {
  }

  /** The timeout is the configured number of seconds, and so at least one second, exactly when that
      fits; a larger configuration wraps around to something else. */
  lemma TimeoutIsSeconds(configured: int)
    requires Int64(configured)
    ensures var seconds := if configured <= 0 then DEFAULT_SECONDS else configured;
      && (ProcessTimeout(configured) == seconds * SECOND <==> configured <= MAX_INT64 / SECOND)
      && (configured <= MAX_INT64 / SECOND ==> ProcessTimeout(configured) >= SECOND)
  {
    var seconds := if configured <= 0 then DEFAULT_SECONDS else configured;
    WrapInRange(seconds * SECOND);
    if configured > MAX_INT64 / SECOND { assert seconds * SECOND > MAX_INT64; }
  }

  /** One second more than fits gives a negative timeout. */
  lemma TimeoutCanWrap()
    ensures ProcessTimeout(MAX_INT64 / SECOND + 1) < 0
  {
  }

  // ---------- stamping and dispatch ----------

  /** CreateTime after decoding at the given time, in milliseconds. A decoded packet never brings one
      of its own, since the field is not part of the wire format. */
  function Stamp(createTime: int, decodedAt: int): int {
    if createTime <= 0 then Quotient(decodedAt, MILLISECOND) else createTime
  }

  /** The test in dis: an expired request is dropped, any other is queued. */
  predicate Expired(createTime: int, now: int, timeout: int) {
    createTime > 0 && Wrap64(now - Wrap64(createTime * MILLISECOND)) >= timeout
  }

  /** A request without a creation time is never dropped, and one that has a time keeps it. */
  lemma OnlyStampedExpire(createTime: int, now: int, timeout: int)
    ensures createTime <= 0 ==> !Expired(createTime, now, timeout)
    ensures createTime > 0 ==> Stamp(createTime, now) == createTime
    ensures createTime > 0 && Int64(createTime * 1_000_000) && Int64(now - createTime * 1_000_000) ==>
      (Expired(createTime, now, timeout) <==> now - createTime * 1_000_000 >= timeout)
  {
    WrapInRange(createTime * MILLISECOND);
    WrapInRange(now - createTime * MILLISECOND);
  }

  /** A request decoded at one time and dispatched at another is dropped exactly when the elapsed
      time, plus what was cut off the decoding time, reaches the timeout. */
  lemma DroppedExactly(decodedAt: int, now: int, timeout: int)
    requires MILLISECOND <= decodedAt <= now <= MAX_INT64
    ensures Expired(Stamp(0, decodedAt), now, timeout)
       <==> now - decodedAt + decodedAt % MILLISECOND >= timeout
  {
    var created := Stamp(0, decodedAt);
    assert created * MILLISECOND == decodedAt - decodedAt % MILLISECOND;
    WrapInRange(created * MILLISECOND);
    WrapInRange(now - created * MILLISECOND);
  }

  /** So at least the timeout after decoding it is always dropped, at most the timeout less one
      millisecond after decoding it is always queued, and in between it can go either way. */
  lemma DroppedWithinAMillisecond(decodedAt: int, now: int, timeout: int)
    requires MILLISECOND <= decodedAt <= now <= MAX_INT64
    ensures now - decodedAt >= timeout ==> Expired(Stamp(0, decodedAt), now, timeout)
    ensures now - decodedAt <= timeout - MILLISECOND ==> !Expired(Stamp(0, decodedAt), now, timeout)
  {
    DroppedExactly(decodedAt, now, timeout);
  }

  /** The bound cannot be improved by a nanosecond. */
  lemma RoundingBoundIsTight(timeout: int)
    requires MILLISECOND <= timeout <= MAX_INT64 - 4 * MILLISECOND
    ensures var decodedAt := 2 * MILLISECOND - 1;
      Expired(Stamp(0, decodedAt), decodedAt + timeout - MILLISECOND + 1, timeout)
  {
    var decodedAt := 2 * MILLISECOND - 1;
    DroppedExactly(decodedAt, decodedAt + timeout - MILLISECOND + 1, timeout);
  }

  /** With a configuration that fits, a request is queued up to a millisecond before the configured
      number of seconds has passed, so never dropped on arrival. */
  lemma FreshRequestsAreQueued(configured: int, decodedAt: int, now: int)
    requires Int64(configured) && configured <= MAX_INT64 / SECOND
    requires MILLISECOND <= decodedAt <= now <= MAX_INT64
    requires now - decodedAt <= (if configured <= 0 then DEFAULT_SECONDS else configured) * SECOND - MILLISECOND
    ensures !Expired(Stamp(0, decodedAt), now, ProcessTimeout(configured))
  {
    TimeoutIsSeconds(configured);
    DroppedExactly(decodedAt, now, ProcessTimeout(configured));
  }

  // ---------- the packet dispatcher ----------

  datatype Request = Request(id: nat, createTime: int, source: string, timeout: int)

  /** A decoded packet by its command. The payload of a request or a ping is None when it is not of
      the expected type. */
  datatype Packet =
    | Broken(message: string)
    | Req(request: Option<Request>)
    | Ping(timestamp: Option<int>)
    | Info
    | Unknown

  /** Calls made on the client connection: Pong, and Write of one packet. */
  datatype Call = PongCall(timestamp: int) | Write(answer: Answer)

  datatype Answer = Throwable(code: int, message: string) | Pong(timestamp: int) | Stats

  const CODE_THROWABLE := 300

  class Application {
    const processTimeout: int
    var queued: seq<Request>
    var calls: seq<Call>

    constructor (processTimeout: int)
      ensures this.processTimeout == processTimeout && queued == [] && calls == []
    {
      this.processTimeout := processTimeout;
      queued, calls := [], [];
    }

    /** Decoding stamps a request that has no creation time of its own. A request of another type
        panics and is recovered; a ping of another type is answered with the zero timestamp. */
    method Dis(packet: Packet, remoteAddr: string, now: int)
      modifies this
      ensures !packet.Req? || packet.request.None? ==> queued == old(queued)
      ensures packet.Req? ==>
        && calls == old(calls)
        && (packet.request.Some? ==>
              var request := packet.request.value;
              queued == old(queued) + if Expired(request.createTime, now, processTimeout) then []
                                      else [request.(source := remoteAddr, timeout := processTimeout)])
      ensures packet.Broken? ==> calls == old(calls) + [Write(Throwable(CODE_THROWABLE, packet.message))]
      ensures packet.Ping? ==>
        calls == old(calls) + match packet.timestamp
                              case Some(timestamp) => [PongCall(timestamp), Write(Pong(timestamp))]
                              case None => [Write(Pong(0))]
      ensures packet.Info? ==> calls == old(calls) + [Write(Stats)]
      ensures packet.Unknown? ==> calls == old(calls)
    {
      match packet {
        case Broken(message) =>
          calls := calls + [Write(Throwable(CODE_THROWABLE, message))];
        case Req(payload) =>
          if payload.None? { return; }
          var req := payload.value.(source := remoteAddr, timeout := processTimeout);
          if req.createTime > 0 && Wrap64(now - Wrap64(req.createTime * MILLISECOND)) >= req.timeout {
          } else {
            queued := queued + [req];
          }
        case Ping(payload) =>
          var timestamp := 0;
          if payload.Some? {
            timestamp := payload.value;
            calls := calls + [PongCall(timestamp)];
          }
          calls := calls + [Write(Pong(timestamp))];
        case Info =>
          calls := calls + [Write(Stats)];
        case Unknown =>
      }
    }
  }
}
