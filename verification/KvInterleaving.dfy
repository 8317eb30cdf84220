/**
 * Every interleaving of write_kv and read_kv by the threads of a group, bucket locks and all, with
 * the search looking at one entry per step.
 */
module KvInterleaving {
  import opened KvStore
  import opened Wrappers

  type Tid = nat

  datatype Pc =
    | Idle
    | Want(op: Op)                     // spins for the lock of the bucket
    | Search(op: Op, i: nat)           // holds the lock, about to look at entry `i`
    | Alloc(op: Op)                    // holds the lock, key not found, about to call kmalloc
    | Unlocking(op: Op, ret: CInt)     // holds the lock, answer known
    | Return(op: Op, ret: CInt)

  /** A call, the moment it takes effect, and its return. */
  datatype Event = Call(t: Tid, op: Op) | Effects(t: Tid, op: Op, ret: CInt) | Returns(t: Tid, op: Op, ret: CInt)

  datatype State = State(buckets: seq<Bucket>, locks: seq<Option<Tid>>, pcs: map<Tid, Pc>, log: seq<Event>)

  datatype Step =
    | Invoke(t: Tid, op: Op) | Lock(t: Tid) | Look(t: Tid) | Kmalloc(t: Tid, ok: bool) | Unlock(t: Tid) | Leave(t: Tid)

  predicate Enabled(s: State, step: Step)
    requires |s.locks| == BUCKETS
  {
    step.t in s.pcs &&
    var pc := s.pcs[step.t];
    match step
    case Invoke(_, _) => pc.Idle?
    case Lock(_) => pc.Want? && s.locks[Hash(pc.op.k)].None?
    case Look(_) => pc.Search?
    case Kmalloc(_, _) => pc.Alloc?
    case Unlock(_) => pc.Unlocking?
    case Leave(_) => pc.Return?
  }

  /** The answer is settled: from here on only the lock has to be released. */
  function Settle(s: State, t: Tid, op: Op, ret: CInt): State {
    s.(pcs := s.pcs[t := Unlocking(op, ret)], log := s.log + [Effects(t, op, ret)])
  }

  function DoLook(s: State, t: Tid): State
    requires |s.buckets| == |s.locks| == BUCKETS && Enabled(s, Look(t))
  {
    var op, i := s.pcs[t].op, s.pcs[t].i;
    var h := Hash(op.k);
    var b := s.buckets[h];
    if op.ReadKv? && b == [] then Settle(s, t, op, -3)
    else if i >= |b| then
      if op.ReadKv? then Settle(s, t, op, -2) else s.(pcs := s.pcs[t := Alloc(op)])
    else if b[i].key != op.k then s.(pcs := s.pcs[t := Search(op, i + 1)])
    else if op.ReadKv? then Settle(s, t, op, b[i].value)
    else Settle(s.(buckets := s.buckets[h := b[i := Entry(op.k, op.v)]]), t, op, 0)
  }

  function DoKmalloc(s: State, t: Tid, ok: bool): State
    requires |s.buckets| == |s.locks| == BUCKETS && Enabled(s, Kmalloc(t, ok))
  {
    var op := s.pcs[t].op;
    var h := Hash(op.k);
    if !ok || op.ReadKv? then Settle(s, t, op, -ENOMEM)
    else Settle(s.(buckets := s.buckets[h := [Entry(op.k, op.v)] + s.buckets[h]]), t, op, 0)
  }

  function Apply(s: State, step: Step): State
    requires |s.buckets| == |s.locks| == BUCKETS && Enabled(s, step)
  {
    var t := step.t;
    var pc := s.pcs[t];
    match step
    case Invoke(_, op) => s.(pcs := s.pcs[t := Want(op)], log := s.log + [Call(t, op)])
    case Lock(_) => s.(locks := s.locks[Hash(pc.op.k) := Some(t)], pcs := s.pcs[t := Search(pc.op, 0)])
    case Look(_) => DoLook(s, t)
    case Kmalloc(_, ok) => DoKmalloc(s, t, ok)
    case Unlock(_) => s.(locks := s.locks[Hash(pc.op.k) := None], pcs := s.pcs[t := Return(pc.op, pc.ret)])
    case Leave(_) => s.(pcs := s.pcs[t := Idle], log := s.log + [Returns(t, pc.op, pc.ret)])
  }

  ghost predicate Initial(s: State) {
    && s.buckets == seq(BUCKETS, i => []) && s.locks == seq(BUCKETS, i => None) && s.log == []
    && forall t | t in s.pcs :: s.pcs[t].Idle?
  }

  // ------------------------------------------------------------------------------------------
  // Linearizability of a log.

  datatype Phase = Quiet | Pending(op: Op) | Settled(op: Op, ret: CInt)

  /** How far thread `t` is with its latest call. */
  ghost function PhaseOf(log: seq<Event>, t: Tid): Phase {
    if log == [] then Quiet else
    var e := log[|log| - 1];
    if e.t != t then PhaseOf(log[..|log| - 1], t) else
    match e
    case Call(_, op) => Pending(op)
    case Effects(_, op, ret) => Settled(op, ret)
    case Returns(_, _, _) => Quiet
  }

  /** Every call takes effect once, between its start and its return, and returns the settled answer. */
  ghost predicate Paired(log: seq<Event>) {
    log == [] ||
    var before, e := log[..|log| - 1], log[|log| - 1];
    Paired(before) &&
    match e
    case Call(t, _) => PhaseOf(before, t) == Quiet
    case Effects(t, op, _) => PhaseOf(before, t) == Pending(op)
    case Returns(t, op, ret) => PhaseOf(before, t) == Settled(op, ret)
  }

  /** The plain map after the effects of a log, in their order. */
  ghost function Replay(log: seq<Event>): Plain {
    if log == [] then map[] else
    var before, e := Replay(log[..|log| - 1]), log[|log| - 1];
    if e.Effects? then Effect(before, e.op, e.ret) else before
  }

  /** Each answer is one the plain map allows at the moment of the effect. */
  ghost predicate Legal(log: seq<Event>) {
    log == [] ||
    var before, e := log[..|log| - 1], log[|log| - 1];
    Legal(before) && (e.Effects? ==> Allowed(Replay(before), e.op, e.ret))
  }

  ghost predicate Linearizable(log: seq<Event>) {
    Paired(log) && Legal(log)
  }

  // ------------------------------------------------------------------------------------------
  // The invariant.

  predicate Holding(pc: Pc) {
    pc.Search? || pc.Alloc? || pc.Unlocking?
  }

  ghost predicate LocksOk(s: State) {
    && |s.locks| == BUCKETS
    && (forall t | t in s.pcs && Holding(s.pcs[t]) :: s.locks[Hash(s.pcs[t].op.k)] == Some(t))
    && (forall h | 0 <= h < BUCKETS && s.locks[h].Some? ::
          var t := s.locks[h].value; t in s.pcs && Holding(s.pcs[t]) && Hash(s.pcs[t].op.k) == h)
  }

  ghost predicate SearchOk(buckets: seq<Bucket>, pc: Pc)
    requires |buckets| == BUCKETS
  {
    match pc
    case Search(op, i) => i <= |buckets[Hash(op.k)]| && Absent(buckets[Hash(op.k)][..i], op.k)
    case Alloc(op) => op.WriteKv? && Absent(buckets[Hash(op.k)], op.k)
    case _ => true
  }

  ghost function PhaseAt(pc: Pc): Phase {
    match pc
    case Idle => Quiet
    case Want(op) => Pending(op)
    case Search(op, _) => Pending(op)
    case Alloc(op) => Pending(op)
    case Unlocking(op, ret) => Settled(op, ret)
    case Return(op, ret) => Settled(op, ret)
  }

  ghost predicate Inv(s: State) {
    && LocksOk(s)
    && TableOk(s.buckets) && Refines(s.buckets, Replay(s.log))
    && (forall t | t in s.pcs :: SearchOk(s.buckets, s.pcs[t]))
    && (forall t | t in s.pcs :: PhaseOf(s.log, t) == PhaseAt(s.pcs[t]))
    && Linearizable(s.log)
  }

  lemma InitialInv(s: State)
    requires Initial(s)
    ensures Inv(s)
  {
  }

  /** Appending an event changes the phase of its thread only. */
  lemma Append(log: seq<Event>, e: Event)
    ensures (log + [e])[..|log|] == log
    ensures forall t :: t != e.t ==> PhaseOf(log + [e], t) == PhaseOf(log, t)
  {
    assert (log + [e])[..|log|] == log;
  }

  /** Changing one bucket does not disturb a search in another. */
  lemma OtherSearches(s: State, t: Tid, b: Bucket, u: Tid)
    requires Inv(s) && t in s.pcs && Holding(s.pcs[t]) && u in s.pcs && u != t
    ensures SearchOk(s.buckets[Hash(s.pcs[t].op.k) := b], s.pcs[u])
  {
    if Holding(s.pcs[u]) {
      assert Hash(s.pcs[u].op.k) != Hash(s.pcs[t].op.k);
    }
  }

  /** Settling an answer that the map allows, with the matching change of one bucket. */
  lemma SettleKeepsInv(s: State, t: Tid, ret: CInt, b: Bucket)
    requires Inv(s) && t in s.pcs && Holding(s.pcs[t]) && !s.pcs[t].Unlocking?
    requires Allowed(Replay(s.log), s.pcs[t].op, ret)
    requires var u := s.buckets[Hash(s.pcs[t].op.k) := b];
             TableOk(u) && Refines(u, Effect(Replay(s.log), s.pcs[t].op, ret))
    ensures var op := s.pcs[t].op;
            Inv(Settle(s.(buckets := s.buckets[Hash(op.k) := b]), t, op, ret))
  {
    var op := s.pcs[t].op;
    var e := Settle(s.(buckets := s.buckets[Hash(op.k) := b]), t, op, ret);
    SettledLog(s.log, t, op, ret);
    forall u | u in e.pcs ensures SearchOk(e.buckets, e.pcs[u]) && PhaseOf(e.log, u) == PhaseAt(e.pcs[u]) {
      if u != t {
        OtherSearches(s, t, b, u);
      }
    }
    SettledLocks(s, t, op, ret, e);
  }

  /** The effect of a pending call, with an answer that is allowed, keeps the log linearizable. */
  lemma SettledLog(log: seq<Event>, t: Tid, op: Op, ret: CInt)
    requires Linearizable(log) && PhaseOf(log, t) == Pending(op) && Allowed(Replay(log), op, ret)
    ensures var now := log + [Effects(t, op, ret)];
            && Linearizable(now) && Replay(now) == Effect(Replay(log), op, ret) && PhaseOf(now, t) == Settled(op, ret)
            && forall u :: u != t ==> PhaseOf(now, u) == PhaseOf(log, u)
  {
    Append(log, Effects(t, op, ret));
  }

  lemma SettledLocks(s: State, t: Tid, op: Op, ret: CInt, e: State)
    requires LocksOk(s) && t in s.pcs && Holding(s.pcs[t]) && op == s.pcs[t].op
    requires e.locks == s.locks && e.pcs == s.pcs[t := Unlocking(op, ret)]
    ensures LocksOk(e)
  {
  }

  /** Going on with the search. */
  lemma MoveOnKeepsInv(s: State, t: Tid, pc: Pc)
    requires Inv(s) && t in s.pcs && s.pcs[t].Search?
    requires (pc.Search? || pc.Alloc?) && pc.op == s.pcs[t].op && SearchOk(s.buckets, pc)
    ensures Inv(s.(pcs := s.pcs[t := pc]))
  {
  }

  lemma ReadSettles(s: State, t: Tid)
    requires Inv(s) && Enabled(s, Look(t)) && s.pcs[t].op.ReadKv?
    requires var b := s.buckets[Hash(s.pcs[t].op.k)]; s.pcs[t].i == |b| || b[s.pcs[t].i].key == s.pcs[t].op.k
    ensures Inv(DoLook(s, t))
  {
    var op, i, m := s.pcs[t].op, s.pcs[t].i, Replay(s.log);
    var h := Hash(op.k);
    var b := s.buckets[h];
    assert SearchOk(s.buckets, s.pcs[t]);
    SearchAnswers(s.buckets, m, op.k, i);
    assert s.buckets[h := b] == s.buckets;
    SettleKeepsInv(s, t, ReadAnswer(m, op.k), b);
  }

  lemma LookKeepsInv(s: State, t: Tid)
    requires Inv(s) && Enabled(s, Look(t))
    ensures Inv(DoLook(s, t))
  {
    var op, i, m := s.pcs[t].op, s.pcs[t].i, Replay(s.log);
    var b := s.buckets[Hash(op.k)];
    assert SearchOk(s.buckets, s.pcs[t]);
    SearchAnswers(s.buckets, m, op.k, i);
    if i < |b| && b[i].key != op.k {
      assert b[..i + 1] == b[..i] + [b[i]];
      MoveOnKeepsInv(s, t, Search(op, i + 1));
    } else if op.ReadKv? {
      ReadSettles(s, t);
    } else if i < |b| {
      OverwriteRefines(s.buckets, m, op.k, i, op.v);
      SettleKeepsInv(s, t, 0, b[i := Entry(op.k, op.v)]);
    } else {
      MoveOnKeepsInv(s, t, Alloc(op));
    }
  }

  lemma KmallocKeepsInv(s: State, t: Tid, ok: bool)
    requires Inv(s) && Enabled(s, Kmalloc(t, ok))
    ensures Inv(DoKmalloc(s, t, ok))
  {
    var op, m := s.pcs[t].op, Replay(s.log);
    var h := Hash(op.k);
    var b := s.buckets[h];
    assert s.buckets[h := b] == s.buckets;
    assert b[..|b|] == b;
    SearchAnswers(s.buckets, m, op.k, |b|);
    if ok {
      InsertRefines(s.buckets, m, op.k, op.v);
      SettleKeepsInv(s, t, 0, [Entry(op.k, op.v)] + b);
    } else {
      SettleKeepsInv(s, t, -ENOMEM, b);
    }
  }

  lemma LockStepKeepsInv(s: State, step: Step)
    requires Inv(s) && Enabled(s, step) && (step.Lock? || step.Unlock?)
    ensures Inv(Apply(s, step))
  {
  }

  /** The start or the end of a call is no effect. */
  lemma BoundaryLog(log: seq<Event>, e: Event)
    requires Linearizable(log) && !e.Effects?
    requires if e.Call? then PhaseOf(log, e.t) == Quiet else PhaseOf(log, e.t) == Settled(e.op, e.ret)
    ensures Linearizable(log + [e]) && Replay(log + [e]) == Replay(log)
    ensures PhaseOf(log + [e], e.t) == if e.Call? then Pending(e.op) else Quiet
    ensures forall u :: u != e.t ==> PhaseOf(log + [e], u) == PhaseOf(log, u)
  {
    Append(log, e);
  }

  /** Starting and ending a call. */
  lemma BoundaryKeepsInv(s: State, t: Tid, pc: Pc, e: Event)
    requires Inv(s) && t in s.pcs && e.t == t && !e.Effects?
    requires (s.pcs[t].Idle? && pc.Want? && e == Call(t, pc.op)) ||
             (s.pcs[t].Return? && pc.Idle? && e == Returns(t, s.pcs[t].op, s.pcs[t].ret))
    ensures Inv(s.(pcs := s.pcs[t := pc], log := s.log + [e]))
  {
    BoundaryLog(s.log, e);
  }

  lemma KeepsInv(s: State, step: Step)
    requires Inv(s) && Enabled(s, step)
    ensures Inv(Apply(s, step))
  {
    match step
    case Look(t) => LookKeepsInv(s, t);
    case Kmalloc(t, ok) => KmallocKeepsInv(s, t, ok);
    case Lock(_) => LockStepKeepsInv(s, step);
    case Unlock(_) => LockStepKeepsInv(s, step);
    case Invoke(t, op) => BoundaryKeepsInv(s, t, Want(op), Call(t, op));
    case Leave(t) => BoundaryKeepsInv(s, t, Idle, Returns(t, s.pcs[t].op, s.pcs[t].ret));
  }

  // ------------------------------------------------------------------------------------------
  // Whole runs.

  ghost predicate Runs(s: State, run: seq<Step>)
    decreases |run|
  {
    |s.buckets| == |s.locks| == BUCKETS &&
    (run == [] || (Enabled(s, run[0]) && Runs(Apply(s, run[0]), run[1..])))
  }

  ghost function Final(s: State, run: seq<Step>): State
    requires Runs(s, run)
    decreases |run|
  {
    if run == [] then s else Final(Apply(s, run[0]), run[1..])
  }

  lemma {:induction false} RunKeepsInv(s: State, run: seq<Step>)
    requires Inv(s) && Runs(s, run)
    ensures Inv(Final(s, run))
    decreases |run|
  {
    if run != [] {
      KeepsInv(s, run[0]);
      RunKeepsInv(Apply(s, run[0]), run[1..]);
    }
  }

  /**
   * Every interleaving is linearizable to a plain map: each call takes effect at one moment between
   * its start and its return, its answer is the one the map gives at that moment, and the table holds
   * that map, no key twice and each key in its own bucket.
   */
  lemma EveryRunIsLinearizable(s: State, run: seq<Step>)
    requires Initial(s) && Runs(s, run)
    ensures var e := Final(s, run);
            Linearizable(e.log) && |e.buckets| == BUCKETS && TableOk(e.buckets) && Refines(e.buckets, Replay(e.log))
  {
    InitialInv(s);
    RunKeepsInv(s, run);
  }
}
