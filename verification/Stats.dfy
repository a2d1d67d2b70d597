/** The server's counters and the ticker that samples them (stat.go). */
module Stats {

  const MAX_ROTATE_SIZE := 10

  /** A counter that also remembers what the last sample saw. Changes returns what was added since. */
  datatype Flow = Flow(count: int, last: int) {
    function Incr(n: int): Flow { Flow(count + n, last) }

    function Changes(): (int, Flow) { (count - last, Flow(count, count)) }
  }

  const ZERO := Flow(0, 0)

  datatype MoaInfo = MoaInfo(
    recv: int, proc: int, error: int, timeout: int, invokePool: int, connections: int, goroutines: int)

  class MoaStat {
    var recv: Flow
    var proc: Flow
    var error: Flow
    var timeout: Flow
    var preMoaInfo: MoaInfo
    var rotateSize: int
    var monitored: seq<MoaInfo>

    constructor ()
      ensures recv == proc == error == timeout == ZERO
      ensures rotateSize == 0 && monitored == []
    {
      recv, proc, error, timeout := ZERO, ZERO, ZERO, ZERO;
      preMoaInfo := MoaInfo(0, 0, 0, 0, 0, 0, 0);
      rotateSize, monitored := 0, [];
    }

    method IncrRecv()
      modifies this`recv
      ensures recv == old(recv).Incr(1)
    {
      recv := recv.Incr(1);
    }

    method IncrProc()
      modifies this`proc
      ensures proc == old(proc).Incr(1)
    {
      proc := proc.Incr(1);
    }

    method IncrError()
      modifies this`error
      ensures error == old(error).Incr(1)
    {
      error := error.Incr(1);
    }

    /** One tick of the ticker: samples all four flows and hands the sample to the monitor. */
    method Tick(size: int, connections: int, goroutines: int)
      modifies this
      ensures preMoaInfo == MoaInfo(old(recv.count - recv.last), old(proc.count - proc.last),
                                    old(error.count - error.last), old(timeout.count - timeout.last),
                                    size, connections, goroutines)
      ensures monitored == old(monitored) + [preMoaInfo]
      ensures recv == Flow(old(recv.count), old(recv.count)) && proc == Flow(old(proc.count), old(proc.count))
      ensures error == Flow(old(error.count), old(error.count))
      ensures timeout == Flow(old(timeout.count), old(timeout.count))
      ensures rotateSize == NextRotate(old(rotateSize))
    {
      var r, p, e, t;
      r, recv := recv.Changes().0, recv.Changes().1;
      p, proc := proc.Changes().0, proc.Changes().1;
      e, error := error.Changes().0, error.Changes().1;
      t, timeout := timeout.Changes().0, timeout.Changes().1;
      preMoaInfo := MoaInfo(r, p, e, t, size, connections, goroutines);
      if rotateSize == MAX_ROTATE_SIZE {
        rotateSize := 0;
      } else {
        rotateSize := rotateSize + 1;
      }
      monitored := monitored + [preMoaInfo];
    }
  }

  function NextRotate(r: int): int {
    if r == MAX_ROTATE_SIZE then 0 else r + 1
  }

  // ---------- any number of ticks ----------

  /** What happens to one flow over time. */
  datatype Act = Add(n: int) | Sample

  function Play(f: Flow, acts: seq<Act>): Flow {
    if acts == [] then f
    else
      var g := Play(f, acts[..|acts| - 1]);
      match acts[|acts| - 1]
      case Add(n) => g.Incr(n)
      case Sample => g.Changes().1
  }

  /** The sum of all sampled deltas. */
  function Reported(f: Flow, acts: seq<Act>): int {
    if acts == [] then 0
    else
      Reported(f, acts[..|acts| - 1])
        + if acts[|acts| - 1].Sample? then Play(f, acts[..|acts| - 1]).Changes().0 else 0
  }

  function Added(acts: seq<Act>): int {
    if acts == [] then 0
    else Added(acts[..|acts| - 1]) + if acts[|acts| - 1].Add? then acts[|acts| - 1].n else 0
  }

  /** Sampling telescopes: what all ticks reported plus what is not sampled yet is what was added. */
  lemma {:induction false} SamplingTelescopes(acts: seq<Act>)
    ensures Reported(ZERO, acts) + Play(ZERO, acts).Changes().0 == Added(acts) == Play(ZERO, acts).count
  {
    if acts != [] { SamplingTelescopes(acts[..|acts| - 1]); }
  }

  function RotateAfter(ticks: nat): int {
    if ticks == 0 then 0 else NextRotate(RotateAfter(ticks - 1))
  }

  lemma OneMoreModulo(n: nat)
    ensures (n + 1) % 11 == if n % 11 == 10 then 0 else n % 11 + 1
  {
  }

  /** The rotation counter after n ticks is n mod 11. */
  lemma {:induction false} RotateIsModulo(ticks: nat)
    ensures RotateAfter(ticks) == ticks % 11
    ensures 0 <= RotateAfter(ticks) <= 10
  {
    if ticks > 0 {
      RotateIsModulo(ticks - 1);
      OneMoreModulo(ticks - 1);
    }
  }
}
