/**
 * Memory accounting of a protocol's sockets (net/core/sock.c): pages are charged to the protocol and
 * to the socket's memory cgroup, under a soft, a pressure and a hard limit.
 *
 * Inline helpers of include/net/sock.h are not part of the sources modelled here. They are taken as:
 * sk_mem_pages rounds up to quanta of 4096 bytes; sk_memory_allocated_add and _sub change
 * memory_allocated by the given pages; sk_stream_moderate_sndbuf lowers an unlocked sk_sndbuf to half
 * the queued bytes but not below 4608; a failed memory-cgroup charge charges nothing. Machine-integer
 * overflow is not modelled.
 */
module SockMemory {

  const QUANTUM := 4096
  const SOCK_MIN_SNDBUF := 4608

  datatype Sock = Sock(forwardAlloc: int, wmemQueued: nat, rmemAlloc: nat, wmemAlloc: nat, sndbuf: int,
                       sndbufLocked: bool, stream: bool, memcg: bool)

  /** The protocol: its three limits, and whether it has a memory_pressure flag at all. */
  datatype Proto = Proto(soft: int, pressured: int, hard: int, hasPressure: bool)

  /** `memory` is memory_allocated and `memcg` the pages charged to memory cgroups. */
  datatype State = State(memory: int, pressure: bool, memcg: int, socks: seq<Sock>)

  /** What the outside decides for one request. */
  datatype Env = Env(chargeOk: bool, memcgPressure: bool, rmem0: int, wmem0: int, socketsAllocated: nat)

  datatype Request = Request(i: nat, size: nat, send: bool, env: Env)

  function Pages(bytes: int): int {
    (bytes + QUANTUM - 1) / QUANTUM
  }

  function Min(a: int, b: int): int { if a < b then a else b }
  function Max(a: int, b: int): int { if a < b then b else a }

  /** sk_stream_moderate_sndbuf. */
  function Moderated(k: Sock): Sock {
    if k.sndbufLocked then k else k.(sndbuf := Max(Min(k.sndbuf, k.wmemQueued / 2), SOCK_MIN_SNDBUF))
  }

  // ------------------------------------------------------------------------------------------
  // Reference: when a request is granted.

  /** The cgroup accepts the pages, or there is no cgroup to ask. */
  predicate Charged(k: Sock, env: Env) {
    k.memcg ==> env.chargeOk
  }

  /** A socket below its guaranteed minimum. */
  predicate BelowMinimum(k: Sock, send: bool, env: Env) {
    if !send then k.rmemAlloc < env.rmem0
    else if k.stream then k.wmemQueued < env.wmem0
    else k.wmemAlloc < env.wmem0
  }

  /** No pressure once the pages are counted, or the socket uses less than its share of the hard limit. */
  predicate FairShare(p: Proto, s: State, k: Sock, pages: int, env: Env) {
    p.hasPressure &&
    ((!(k.memcg && env.memcgPressure) && !s.pressure && s.memory + pages <= p.pressured) ||
     p.hard > env.socketsAllocated * Pages(k.wmemQueued + k.rmemAlloc + k.forwardAlloc))
  }

  /** A stream send whose queued bytes reach the send buffer is never turned down. */
  predicate Forced(k: Sock, size: nat, send: bool) {
    send && k.stream && k.wmemQueued + size >= Moderated(k).sndbuf
  }

  predicate WithinLimits(p: Proto, s: State, k: Sock, pages: int, send: bool, env: Env) {
    && Charged(k, env)
    && (s.memory + pages <= p.soft ||
        (s.memory + pages <= p.hard && (BelowMinimum(k, send, env) || FairShare(p, s, k, pages, env))))
  }

  predicate Grants(p: Proto, s: State, k: Sock, size: nat, pages: int, send: bool, env: Env) {
    WithinLimits(p, s, k, pages, send, env) || Forced(k, size, send)
  }

  /** The pressure flag after the pages were counted; nothing looks at it when the cgroup refuses. */
  function PressureAfter(p: Proto, s: State, k: Sock, pages: int, env: Env): bool {
    if !Charged(k, env) then s.pressure
    else if s.memory + pages <= p.soft then false
    else s.pressure || (p.hasPressure && s.memory + pages > p.pressured)
  }

  /** What a request does: all of it when granted, and none of it otherwise, save the flag and the send buffer. */
  function Raised(p: Proto, s: State, i: nat, size: nat, pages: int, send: bool, env: Env): State
    requires i < |s.socks|
  {
    var k := s.socks[i];
    var granted := Grants(p, s, k, size, pages, send, env);
    var slow := send && k.stream && !WithinLimits(p, s, k, pages, send, env);
    State(s.memory + (if granted then pages else 0),
          PressureAfter(p, s, k, pages, env),
          s.memcg + (if granted && k.memcg then pages else 0),
          if slow then s.socks[i := Moderated(k)] else s.socks)
  }

  /**
   * __sk_mem_raise_allocated: charges first, then looks at the limits, and takes the charge back when
   * the request is turned down. `pages` need not be the pages of `size`.
   */
  method RaiseAllocated(p: Proto, before: State, i: nat, size: nat, pages: int, send: bool, env: Env)
    returns (granted: bool, s: State)
    requires i < |before.socks|
    ensures granted <==> Grants(p, before, before.socks[i], size, pages, send, env)
    ensures s == Raised(p, before, i, size, pages, send, env)
  {
    s := before.(memory := before.memory + pages);
    var k := before.socks[i];
    var charged := true;
    label suppress: {
      if k.memcg {
        charged := env.chargeOk;
        if !charged { break suppress; }
        s := s.(memcg := s.memcg + pages);
      }
      if s.memory <= p.soft {
        s := s.(pressure := false);
        return true, s;
      }
      if s.memory > p.pressured && p.hasPressure {
        s := s.(pressure := true);
      }
      if s.memory > p.hard { break suppress; }
      if !send {
        if k.rmemAlloc < env.rmem0 { return true, s; }
      } else if k.stream {
        if k.wmemQueued < env.wmem0 { return true, s; }
      } else if k.wmemAlloc < env.wmem0 {
        return true, s;
      }
      if p.hasPressure {
        if !((k.memcg && env.memcgPressure) || s.pressure) { return true, s; }
        if p.hard > env.socketsAllocated * Pages(k.wmemQueued + k.rmemAlloc + k.forwardAlloc) { return true, s; }
      }
    }
    if send && k.stream {
      k := Moderated(k);
      s := s.(socks := s.socks[i := k]);
      if k.wmemQueued + size >= k.sndbuf {
        if k.memcg && !charged {
          s := s.(memcg := s.memcg + pages);
        }
        return true, s;
      }
    }
    s := s.(memory := s.memory - pages);
    if k.memcg && charged {
      s := s.(memcg := s.memcg - pages);
    }
    granted := false;
  }

  /** Only the forward allocation and the send buffer of a socket differ, the first by `bytes`. */
  predicate Moved(k: Sock, now: Sock, bytes: int) {
    now == k.(forwardAlloc := k.forwardAlloc + bytes, sndbuf := now.sndbuf)
  }

  /**
   * __sk_mem_schedule: all three accounts move by the pages of the request, or none does; both balances
   * stay; and no other socket is touched.
   */
  method Schedule(p: Proto, before: State, r: Request) returns (granted: bool, s: State)
    requires r.i < |before.socks|
    ensures granted <==> Granted(p, before, r)
    ensures var pages, k := if granted then Pages(r.size) else 0, before.socks[r.i];
      && s.memory == before.memory + pages && s.memcg == before.memcg + (if k.memcg then pages else 0)
      && |s.socks| == |before.socks| && Moved(k, s.socks[r.i], pages * QUANTUM)
      && s.socks == before.socks[r.i := s.socks[r.i]]
    ensures Balance(s) == Balance(before) && MemcgBalance(s) == MemcgBalance(before)
    ensures s == Apply(p, before, ScheduleOp(r))
  {
    StepKeepsBalance(p, before, ScheduleOp(r));
    var amt := Pages(r.size);
    s := Forward(before, r.i, amt * QUANTUM);
    granted, s := RaiseAllocated(p, s, r.i, r.size, amt, r.send, r.env);
    if !granted {
      s := Forward(s, r.i, -(amt * QUANTUM));
    }
  }

  /**
   * __sk_mem_reclaim with __sk_mem_reduce_allocated: the whole quanta of the amount leave all three
   * accounts, so both balances stay; the pressure flag is only ever cleared, and only below the soft limit.
   */
  method Reclaim(p: Proto, before: State, i: nat, amount: int) returns (s: State)
    requires i < |before.socks|
    ensures |s.socks| == |before.socks| && s.socks == before.socks[i := s.socks[i]]
    ensures var gone, k := before.socks[i].forwardAlloc - s.socks[i].forwardAlloc, before.socks[i];
      && gone <= amount < gone + QUANTUM && (before.memory - s.memory) * QUANTUM == gone
      && before.memcg - s.memcg == (if k.memcg then before.memory - s.memory else 0)
      && s.socks[i] == k.(forwardAlloc := k.forwardAlloc - gone)
    ensures s.pressure != before.pressure <==> before.pressure && p.hasPressure && s.memory < p.soft
    ensures Balance(s) == Balance(before) && MemcgBalance(s) == MemcgBalance(before)
    ensures s == Apply(p, before, ReclaimOp(i, amount))
  {
    StepKeepsBalance(p, before, ReclaimOp(i, amount));
    var quanta := amount / QUANTUM;
    s := Forward(before, i, -(quanta * QUANTUM));
    s := s.(memory := s.memory - quanta);
    if s.socks[i].memcg {
      s := s.(memcg := s.memcg - quanta);
    }
    if s.pressure && p.hasPressure && s.memory < p.soft {
      s := s.(pressure := false);
    }
  }

  // ------------------------------------------------------------------------------------------
  // Whole runs.

  datatype Op = ScheduleOp(r: Request) | ReclaimOp(j: nat, amount: int)

  predicate On(s: State, op: Op) {
    match op case ScheduleOp(r) => r.i < |s.socks| case ReclaimOp(j, _) => j < |s.socks|
  }

  function Forward(s: State, i: nat, bytes: int): State
    requires i < |s.socks|
  {
    s.(socks := s.socks[i := s.socks[i].(forwardAlloc := s.socks[i].forwardAlloc + bytes)])
  }

  /** The socket asks with the pages already added to its forward allocation. */
  predicate Granted(p: Proto, s: State, r: Request)
    requires r.i < |s.socks|
  {
    var amt := Pages(r.size);
    Grants(p, Forward(s, r.i, amt * QUANTUM), Forward(s, r.i, amt * QUANTUM).socks[r.i], r.size, amt, r.send, r.env)
  }

  function Apply(p: Proto, s: State, op: Op): State
    requires On(s, op)
  {
    match op
    case ScheduleOp(r) =>
      var amt := Pages(r.size);
      var e := Raised(p, Forward(s, r.i, amt * QUANTUM), r.i, r.size, amt, r.send, r.env);
      if Granted(p, s, r) then e else Forward(e, r.i, -(amt * QUANTUM))
    case ReclaimOp(j, amount) =>
      var quanta := amount / QUANTUM;
      var e := Forward(s, j, -(quanta * QUANTUM));
      State(s.memory - quanta, s.pressure && !(p.hasPressure && s.memory - quanta < p.soft),
            s.memcg - (if s.socks[j].memcg then quanta else 0), e.socks)
  }

  /** Bytes in the forward allocations, of all sockets or of those in a memory cgroup. */
  function Forwarded(socks: seq<Sock>, memcgOnly: bool): int {
    if socks == [] then 0 else
    Forwarded(socks[..|socks| - 1], memcgOnly) +
    var k := socks[|socks| - 1]; if memcgOnly && !k.memcg then 0 else k.forwardAlloc
  }

  lemma {:induction false} ForwardedUpdate(socks: seq<Sock>, i: nat, k: Sock, memcgOnly: bool)
    requires i < |socks| && k.memcg == socks[i].memcg
    ensures Forwarded(socks[i := k], memcgOnly) == Forwarded(socks, memcgOnly) +
            if memcgOnly && !k.memcg then 0 else k.forwardAlloc - socks[i].forwardAlloc
  {
    var n := |socks| - 1;
    if i < n {
      ForwardedUpdate(socks[..n], i, k, memcgOnly);
      assert socks[i := k][..n] == socks[..n][i := k];
    } else {
      assert socks[i := k][..n] == socks[..n];
    }
  }

  /** What the books say is charged and not in a forward allocation. */
  function Balance(s: State): int {
    s.memory * QUANTUM - Forwarded(s.socks, false)
  }

  function MemcgBalance(s: State): int {
    s.memcg * QUANTUM - Forwarded(s.socks, true)
  }

  /** One step changes one socket, and its forward allocation by as many quanta as the charges. */
  lemma StepKeepsBalance(p: Proto, s: State, op: Op)
    requires On(s, op)
    ensures var e := Apply(p, s, op);
            Balance(e) == Balance(s) && MemcgBalance(e) == MemcgBalance(s) && |e.socks| == |s.socks|
  {
    var e := Apply(p, s, op);
    var i := if op.ScheduleOp? then op.r.i else op.j;
    var k := e.socks[i];
    assert e.socks == s.socks[i := k];
    ForwardedUpdate(s.socks, i, k, false);
    ForwardedUpdate(s.socks, i, k, true);
  }

  ghost predicate Runs(p: Proto, s: State, run: seq<Op>)
    decreases |run|
  {
    run == [] || (On(s, run[0]) && Runs(p, Apply(p, s, run[0]), run[1..]))
  }

  ghost function Final(p: Proto, s: State, run: seq<Op>): State
    requires Runs(p, s, run)
    decreases |run|
  {
    if run == [] then s else Final(p, Apply(p, s, run[0]), run[1..])
  }

  /**
   * Over every run of schedule and reclaim on any sockets, memory_allocated in bytes minus the forward
   * allocations never changes, and neither does the same balance of the memory cgroups.
   */
  lemma {:induction false} RunKeepsBalance(p: Proto, s: State, run: seq<Op>)
    requires Runs(p, s, run)
    ensures Balance(Final(p, s, run)) == Balance(s) && MemcgBalance(Final(p, s, run)) == MemcgBalance(s)
    decreases |run|
  {
    if run != [] {
      StepKeepsBalance(p, s, run[0]);
      RunKeepsBalance(p, Apply(p, s, run[0]), run[1..]);
    }
  }

  /**
   * A request moves memory_allocated, the cgroup charge and the forward allocation by its pages when it
   * is granted, the charge the cgroup had refused included, and by nothing when it is not.
   */
  lemma AllOrNothing(p: Proto, s: State, r: Request)
    requires r.i < |s.socks|
    ensures var e, k := Apply(p, s, ScheduleOp(r)), s.socks[r.i];
            var pages := if Granted(p, s, r) then Pages(r.size) else 0;
            && e.memory == s.memory + pages
            && e.memcg == s.memcg + (if k.memcg then pages else 0)
            && |e.socks| == |s.socks| && e.socks[r.i].forwardAlloc == k.forwardAlloc + pages * QUANTUM
            && forall j | 0 <= j < |s.socks| && j != r.i :: e.socks[j] == s.socks[j]
  {
  }

  /**
   * A grant that takes memory_allocated above the hard limit (and not below the soft one, should the
   * limits be out of order) is a stream send whose queued bytes and request reach the send buffer.
   */
  lemma OnlyForcedAboveHardLimit(p: Proto, s: State, r: Request)
    requires r.i < |s.socks|
    requires Granted(p, s, r) && Apply(p, s, ScheduleOp(r)).memory > p.hard
    requires Apply(p, s, ScheduleOp(r)).memory > p.soft
    ensures var e := Apply(p, s, ScheduleOp(r));
            |e.socks| == |s.socks| && r.send && e.socks[r.i].stream &&
            e.socks[r.i].wmemQueued + r.size >= e.socks[r.i].sndbuf
  {
  }
}
