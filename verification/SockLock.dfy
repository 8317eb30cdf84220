/**
 * The two-level socket lock of net/core/sock.c: a spinlock (slock), an ownership flag and a backlog
 * of packets that arrive while a task owns the socket.
 *
 * The inline helpers of include/net/sock.h are not part of the sources modelled here. They are taken
 * as: sk_add_backlog refuses when backlog.len + rmem_alloc > sk_rcvbuf (and may refuse for other
 * reasons), otherwise appends and adds truesize to backlog.len; sock_release_ownership clears the
 * flag; sk_rcvbuf does not change during a run. wake_up takes the first waiter off the queue, as it does
 * with exclusive waiters of DEFINE_WAIT; a waiter goes on only after it was woken.
 */
module SockLock {

  import opened Wrappers

  type Tid = nat

  datatype Packet = Packet(id: nat, truesize: nat)

  /** Where a task or a softirq stands. */
  datatype Pc =
    | Idle
    | Want(fast: bool)                          // spins for slock in lock_sock / __lock_sock_fast
    | Test(fast: bool)                          // holds slock, looks at the flag
    | Sleep                                     // __lock_sock: on the queue, slock released, in schedule()
    | Woken                                     // off the queue, spins for slock again
    | Recheck                                   // __lock_sock: slock taken again
    | Took                                      // flag set, slock still held
    | Owner                                     // inside the section
    | FastHold                                  // inside the section on slock alone
    | RelSpin(flush: bool)                      // release_sock / __sk_flush_backlog spins for slock
    | RelFirst                                  // release_sock: looks at backlog.tail
    | RelLoop(flush: bool)                      // __release_sock: looks at backlog.head
    | Drain(batch: seq<Packet>, flush: bool)    // feeds the detached packets, slock released
    | DrainBack(flush: bool)                    // spins for slock again
    | RelEnd(flush: bool)                       // backlog empty, slock held, flag still set
    | RelWake                                   // flag cleared, slock held, looks at the queue
    | RelUnlock                                 // about to drop slock
    | RecvWant(p: Packet)                       // __sk_receive_skb spins for slock
    | RecvTest(p: Packet)                       // holds slock, looks at the flag
    | RecvRun(p: Packet)                        // sk_backlog_rcv under slock
    | RecvUnlock                                // about to drop slock

  /**
   * `owner` names the task that set the flag: the code does not store it. `admitted` and `processed`
   * record the packets accepted and the packets handed to sk_backlog_rcv, in order. `queue` is the wait
   * queue of the lock.
   */
  datatype State = State(slock: Option<Tid>, owned: bool, owner: Option<Tid>,
                         backlog: seq<Packet>, len: nat, queue: seq<Tid>, pcs: map<Tid, Pc>,
                         admitted: seq<Packet>, processed: seq<Packet>)

  /** One atomic step of thread `t`. */
  datatype Step =
    | CallLock(t: Tid, fast: bool) | CallRelease(t: Tid, flush: bool) | CallReceive(t: Tid, p: Packet)
    | DropEarly(t: Tid)              // filter or sk_rcvqueues_full before the lock
    | Spin(t: Tid)                   // spin_lock_bh succeeds
    | Decide(t: Tid)                 // the test made while holding slock
    | Enqueue(t: Tid, rmem: nat, refuse: bool)  // sk_add_backlog
    | Feed(t: Tid)                   // sk_backlog_rcv
    | Callback(t: Tid)               // release_cb gives up ownership early
    | Wake(t: Tid)                   // wake_up, if anybody waits
    | Unlock(t: Tid)                 // spin_unlock_bh

  function Go(s: State, t: Tid, pc: Pc): State {
    s.(pcs := s.pcs[t := pc])
  }

  predicate Enabled(s: State, step: Step) {
    step.t in s.pcs &&
    var pc := s.pcs[step.t];
    match step
    case CallLock(_, _) => pc.Idle?
    case CallRelease(_, _) => pc.Owner?
    case CallReceive(_, p) => pc.Idle? && 0 < p.truesize
    case DropEarly(_) => pc.RecvWant?
    case Spin(_) => s.slock.None? && (pc.Want? || pc.Woken? || pc.RelSpin? || pc.DrainBack? || pc.RecvWant?)
    case Decide(_) => pc.Test? || pc.Recheck? || pc.RelFirst? || pc.RelLoop? || (pc.RelEnd? && !pc.flush) ||
                      (pc.RecvTest? && !s.owned)
    case Enqueue(_, _, _) => pc.RecvTest? && s.owned
    case Feed(_) => pc.Drain? || pc.RecvRun?
    case Callback(_) => pc.RelEnd? && !pc.flush
    case Wake(_) => pc.RelWake?
    case Unlock(_) => pc.Took? || pc.FastHold? || pc.RelUnlock? || pc.RecvUnlock? || (pc.RelEnd? && pc.flush)
  }

  /** spin_lock_bh succeeds; where the code continues. */
  function DoSpin(s: State, t: Tid): State
    requires Enabled(s, Spin(t))
  {
    Go(s.(slock := Some(t)), t,
       match s.pcs[t]
       case Want(f) => Test(f)
       case Woken => Recheck
       case RelSpin(flush) => if flush then RelLoop(true) else RelFirst
       case DrainBack(flush) => RelLoop(flush)
       case RecvWant(p) => RecvTest(p))
  }

  function DoDecide(s: State, t: Tid): State
    requires Enabled(s, Decide(t))
  {
    match s.pcs[t]
    case Test(fast) =>
      if s.owned then Go(s.(slock := None, queue := s.queue + [t]), t, Sleep)
      else if fast then Go(s, t, FastHold)
      else Go(s.(owned := true, owner := Some(t)), t, Took)
    case Recheck =>
      if s.owned then Go(s.(slock := None, queue := s.queue + [t]), t, Sleep)
      else Go(s.(owned := true, owner := Some(t)), t, Took)
    case RelFirst => if s.backlog == [] then Go(s, t, RelEnd(false)) else Go(s, t, RelLoop(false))
    case RelLoop(flush) =>
      if s.backlog == [] then Go(s.(len := 0), t, RelEnd(flush))
      else Go(s.(backlog := [], slock := None), t, Drain(s.backlog, flush))
    case RelEnd(_) => Go(s.(owned := false, owner := None), t, RelWake)
    case RecvTest(p) => Go(s, t, RecvRun(p))
  }

  function DoFeed(s: State, t: Tid): State
    requires Enabled(s, Feed(t))
  {
    match s.pcs[t]
    case RecvRun(p) =>
      Go(s.(admitted := s.admitted + [p], processed := s.processed + [p]), t, RecvUnlock)
    case Drain(batch, flush) =>
      if |batch| == 0 then Go(s, t, DrainBack(flush)) else
      Go(s.(processed := s.processed + [batch[0]]), t,
         if |batch| == 1 then DrainBack(flush) else Drain(batch[1..], flush))
  }

  function DoEnqueue(s: State, t: Tid, rcvbuf: int, rmem: nat, refuse: bool): State
    requires Enabled(s, Enqueue(t, rmem, refuse))
  {
    var p := s.pcs[t].p;
    if refuse || s.len + rmem > rcvbuf then Go(s, t, RecvUnlock)
    else Go(s.(backlog := s.backlog + [p], len := s.len + p.truesize, admitted := s.admitted + [p]), t, RecvUnlock)
  }

  function DoWake(s: State, t: Tid): State {
    if s.queue == [] then Go(s, t, RelUnlock)
    else Go(Go(s.(queue := s.queue[1..]), s.queue[0], Woken), t, RelUnlock)
  }

  function Apply(s: State, rcvbuf: int, step: Step): State
    requires Enabled(s, step)
  {
    var t := step.t;
    match step
    case CallLock(_, fast) => Go(s, t, Want(fast))
    case CallRelease(_, flush) => Go(s, t, RelSpin(flush))
    case CallReceive(_, p) => Go(s, t, RecvWant(p))
    case DropEarly(_) => Go(s, t, Idle)
    case Spin(_) => DoSpin(s, t)
    case Decide(_) => DoDecide(s, t)
    case Enqueue(_, rmem, refuse) => DoEnqueue(s, t, rcvbuf, rmem, refuse)
    case Feed(_) => DoFeed(s, t)
    case Callback(_) => Go(s.(owned := false, owner := None), t, RelWake)
    case Wake(_) => DoWake(s, t)
    case Unlock(_) =>
      Go(s.(slock := None), t, if s.pcs[t].Took? || s.pcs[t].RelEnd? then Owner else Idle)
  }

  /** A fresh socket and any set of threads. */
  predicate Initial(s: State) {
    && s.slock.None? && !s.owned && s.owner.None? && s.backlog == [] && s.len == 0 && s.queue == []
    && s.admitted == [] && s.processed == []
    && forall t | t in s.pcs :: s.pcs[t].Idle?
  }

  // ------------------------------------------------------------------------------------------
  // The invariant.

  predicate HoldsSlock(pc: Pc) {
    pc.Test? || pc.Recheck? || pc.Took? || pc.FastHold? || pc.RelFirst? || pc.RelLoop? || pc.RelEnd? ||
    pc.RelWake? || pc.RelUnlock? || pc.RecvTest? || pc.RecvRun? || pc.RecvUnlock?
  }

  predicate Owns(pc: Pc) {
    pc.Took? || pc.Owner? || pc.RelSpin? || pc.RelFirst? || pc.RelLoop? || pc.Drain? || pc.DrainBack? || pc.RelEnd?
  }

  /** Inside __release_sock. */
  predicate InDrain(pc: Pc) {
    pc.RelLoop? || pc.Drain? || pc.DrainBack?
  }

  /** The packets detached from the backlog and not yet fed. */
  function Detached(s: State): seq<Packet> {
    if s.owner.Some? && s.owner.value in s.pcs && s.pcs[s.owner.value].Drain? then s.pcs[s.owner.value].batch else []
  }

  /** Excludes every other thread: owns the socket, or works on it under slock with the flag clear. */
  predicate Inside(pc: Pc) {
    Owns(pc) || pc.FastHold? || pc.RecvRun?
  }

  ghost predicate Locks(s: State) {
    && (s.slock.Some? ==> s.slock.value in s.pcs)
    && (forall t | t in s.pcs :: HoldsSlock(s.pcs[t]) <==> s.slock == Some(t))
    && (s.owner.Some? ==> s.owner.value in s.pcs)
    && (forall t | t in s.pcs :: Owns(s.pcs[t]) <==> s.owner == Some(t))
    && (s.owned <==> s.owner.Some?)
    && (forall t | t in s.pcs && (s.pcs[t].FastHold? || s.pcs[t].RecvRun?) :: !s.owned)
  }

  ghost predicate Queue(s: State) {
    && (s.backlog != [] ==> s.owned)
    && s.admitted == s.processed + Detached(s) + s.backlog
    && (forall t | t in s.pcs && s.pcs[t].RelEnd? :: s.backlog == [])
    && (forall t | t in s.pcs && s.pcs[t].Drain? :: s.pcs[t].batch != [])
    && (forall t | t in s.pcs && (s.pcs[t].RecvWant? || s.pcs[t].RecvTest? || s.pcs[t].RecvRun?) ::
          0 < s.pcs[t].p.truesize)
  }

  /** Outside a drain backlog.len is the size of the backlog. */
  ghost predicate Length(s: State) {
    (s.owner.Some? && s.owner.value in s.pcs && InDrain(s.pcs[s.owner.value])) || s.len == Size(s.backlog)
  }

  function Size(q: seq<Packet>): nat {
    if q == [] then 0 else Size(q[..|q| - 1]) + q[|q| - 1].truesize
  }

  /** The queue holds exactly the sleepers, each once. */
  ghost predicate Sleepers(queue: seq<Tid>, pcs: map<Tid, Pc>) {
    && (forall i | 0 <= i < |queue| :: queue[i] in pcs && pcs[queue[i]].Sleep?)
    && (forall i, j | 0 <= i < j < |queue| :: queue[i] != queue[j])
    && (forall t | t in pcs && pcs[t].Sleep? :: t in queue)
  }

  /** Will look at the flag, or wake somebody who will. */
  predicate OnItsWay(pc: Pc) {
    pc.Woken? || pc.Recheck? || pc.RelWake?
  }

  ghost predicate Waiters(s: State) {
    && Sleepers(s.queue, s.pcs)
    && (s.queue != [] && !s.owned ==> exists t :: t in s.pcs && OnItsWay(s.pcs[t]))
  }

  ghost predicate Core(s: State) {
    Locks(s) && Queue(s) && Length(s)
  }

  ghost predicate Inv(s: State) {
    Core(s) && Waiters(s)
  }

  lemma InitialInv(s: State)
    requires Initial(s)
    ensures Inv(s)
  {
  }

  /** A thread moves on with the same locks, into no part that needs the flag clear. */
  lemma MovesOn(s: State, t: Tid, pc: Pc)
    requires Locks(s) && t in s.pcs && HoldsSlock(pc) == HoldsSlock(s.pcs[t]) && Owns(pc) == Owns(s.pcs[t])
    requires !pc.FastHold? && !pc.RecvRun?
    ensures Locks(Go(s, t, pc))
  {
  }

  /** The locks after each kind of step. */
  lemma CallKeepsLocks(s: State, rcvbuf: int, step: Step)
    requires Core(s) && Enabled(s, step)
    requires !step.Decide? && !step.Feed? && !step.Unlock? && !step.Callback? && !step.Spin? && !step.Wake?
    ensures Locks(Apply(s, rcvbuf, step))
  {
    var e := Apply(s, rcvbuf, step);
    MovesOn(s, step.t, e.pcs[step.t]);
    assert e.pcs == Go(s, step.t, e.pcs[step.t]).pcs && e.slock == s.slock && e.owner == s.owner && e.owned == s.owned;
  }

  lemma SpinKeepsLocks(s: State, t: Tid)
    requires Core(s) && Enabled(s, Spin(t))
    ensures Locks(DoSpin(s, t))
  {
  }

  // What a thread may do to the locks, seen by the locks alone.

  lemma DropsSlock(s: State, t: Tid, pc: Pc, e: State)
    requires Locks(s) && t in s.pcs && HoldsSlock(s.pcs[t]) && !HoldsSlock(pc) && Owns(pc) == Owns(s.pcs[t])
    requires e.slock.None? && e.owned == s.owned && e.owner == s.owner && e.pcs == s.pcs[t := pc]
    ensures Locks(e)
  {
  }

  lemma TakesFlag(s: State, t: Tid, e: State)
    requires Locks(s) && t in s.pcs && HoldsSlock(s.pcs[t]) && !s.owned
    requires e.slock == s.slock && e.owned && e.owner == Some(t) && e.pcs == s.pcs[t := Took]
    ensures Locks(e)
  {
  }

  lemma ClearsFlag(s: State, t: Tid, e: State)
    requires Locks(s) && t in s.pcs && HoldsSlock(s.pcs[t]) && Owns(s.pcs[t])
    requires e.slock == s.slock && !e.owned && e.owner.None? && e.pcs == s.pcs[t := RelWake]
    ensures Locks(e)
  {
  }

  lemma StaysHolding(s: State, t: Tid, pc: Pc, e: State)
    requires Locks(s) && t in s.pcs && HoldsSlock(pc) == HoldsSlock(s.pcs[t]) && Owns(pc) == Owns(s.pcs[t])
    requires pc.FastHold? || pc.RecvRun? ==> !s.owned
    requires e.slock == s.slock && e.owned == s.owned && e.owner == s.owner && e.pcs == s.pcs[t := pc]
    ensures Locks(e)
  {
  }

  lemma DecideKeepsLocks(s: State, t: Tid)
    requires Core(s) && Enabled(s, Decide(t))
    ensures Locks(DoDecide(s, t))
  {
    var e := DoDecide(s, t);
    var pc := e.pcs[t];
    if pc.Took? {
      TakesFlag(s, t, e);
    } else if pc.RelWake? {
      ClearsFlag(s, t, e);
    } else if pc.Sleep? || pc.Drain? {
      DropsSlock(s, t, pc, e);
    } else {
      StaysHolding(s, t, pc, e);
    }
  }

  lemma OtherKeepsLocks(s: State, rcvbuf: int, step: Step)
    requires Core(s) && Enabled(s, step) && (step.Feed? || step.Unlock? || step.Callback?)
    ensures Locks(Apply(s, rcvbuf, step))
  {
    var t, e := step.t, Apply(s, rcvbuf, step);
    match step
    case Feed(_) => StaysHolding(s, t, e.pcs[t], e);
    case Unlock(_) => DropsSlock(s, t, e.pcs[t], e);
    case Callback(_) => ClearsFlag(s, t, e);
  }

  /** The packets after each kind of step. */
  lemma CallKeepsQueue(s: State, rcvbuf: int, step: Step)
    requires Core(s) && Enabled(s, step) && !step.Decide? && !step.Feed? && !step.Enqueue? && !step.Wake?
    ensures Queue(Apply(s, rcvbuf, step))
  {
  }

  lemma DecideKeepsQueue(s: State, t: Tid)
    requires Core(s) && Enabled(s, Decide(t))
    ensures Queue(DoDecide(s, t))
  {
  }

  lemma FeedKeepsQueue(s: State, t: Tid)
    requires Core(s) && Enabled(s, Feed(t))
    ensures Queue(DoFeed(s, t))
  {
  }

  lemma EnqueueKeepsQueue(s: State, rcvbuf: int, t: Tid, rmem: nat, refuse: bool)
    requires Core(s) && Enabled(s, Enqueue(t, rmem, refuse))
    ensures Queue(DoEnqueue(s, t, rcvbuf, rmem, refuse))
  {
  }

  lemma KeepsLength(s: State, rcvbuf: int, step: Step)
    requires Core(s) && Enabled(s, step) && !step.Wake?
    ensures Length(Apply(s, rcvbuf, step))
  {
  }

  /** A thread that neither goes to sleep nor was asleep. */
  lemma AwakeMoves(queue: seq<Tid>, pcs: map<Tid, Pc>, t: Tid, pc: Pc)
    requires Sleepers(queue, pcs) && t in pcs && !pcs[t].Sleep? && !pc.Sleep?
    ensures Sleepers(queue, pcs[t := pc])
  {
  }

  lemma GoesToSleep(queue: seq<Tid>, pcs: map<Tid, Pc>, t: Tid)
    requires Sleepers(queue, pcs) && t in pcs && !pcs[t].Sleep?
    ensures Sleepers(queue + [t], pcs[t := Sleep])
  {
  }

  lemma FirstWakes(queue: seq<Tid>, pcs: map<Tid, Pc>)
    requires Sleepers(queue, pcs) && queue != []
    ensures Sleepers(queue[1..], pcs[queue[0] := Woken])
  {
    forall t | t in pcs && t != queue[0] && pcs[t].Sleep? ensures t in queue[1..] {
      var i :| 0 <= i < |queue| && queue[i] == t;
      assert queue[1..][i - 1] == t;
    }
  }

  /** Whoever is on its way stays so, takes the flag, or hands the way on. */
  lemma KeepsWaiters(s: State, rcvbuf: int, step: Step)
    requires Inv(s) && Enabled(s, step)
    ensures Waiters(Apply(s, rcvbuf, step))
  {
    var t, e := step.t, Apply(s, rcvbuf, step);
    if step.Wake? {
      WakeKeepsWaiters(s, t);
    } else if e.pcs[t].Sleep? {
      GoesToSleep(s.queue, s.pcs, t);
    } else {
      AwakeMoves(s.queue, s.pcs, t, e.pcs[t]);
      StaysOnItsWay(s, rcvbuf, step);
    }
  }

  lemma StaysOnItsWay(s: State, rcvbuf: int, step: Step)
    requires Inv(s) && Enabled(s, step) && !step.Wake? && !Apply(s, rcvbuf, step).pcs[step.t].Sleep?
    ensures var e := Apply(s, rcvbuf, step);
            e.queue == s.queue && (e.queue != [] && !e.owned ==> exists u :: u in e.pcs && OnItsWay(e.pcs[u]))
  {
    var t, e := step.t, Apply(s, rcvbuf, step);
    if e.queue != [] && !e.owned {
      if s.owned {
        assert OnItsWay(e.pcs[t]);
      } else {
        var u :| u in s.pcs && OnItsWay(s.pcs[u]);
        assert OnItsWay(e.pcs[u]);
      }
    }
  }

  lemma WakeKeepsWaiters(s: State, t: Tid)
    requires Inv(s) && Enabled(s, Wake(t))
    ensures Waiters(DoWake(s, t))
  {
    var e := DoWake(s, t);
    if s.queue != [] {
      FirstWakes(s.queue, s.pcs);
      AwakeMoves(s.queue[1..], s.pcs[s.queue[0] := Woken], t, RelUnlock);
      assert OnItsWay(e.pcs[s.queue[0]]);
    } else {
      AwakeMoves(s.queue, s.pcs, t, RelUnlock);
    }
  }

  /** The first sleeper is taken off the queue. */
  lemma FirstKeepsCore(s: State, u: Tid, queue: seq<Tid>)
    requires Core(s) && u in s.pcs && s.pcs[u].Sleep?
    ensures Core(Go(s.(queue := queue), u, Woken))
  {
    MovesOn(s, u, Woken);
  }

  lemma UnlockSoon(s: State, t: Tid)
    requires Core(s) && t in s.pcs && s.pcs[t].RelWake?
    ensures Core(Go(s, t, RelUnlock))
  {
    MovesOn(s, t, RelUnlock);
  }

  lemma WakeKeepsCore(s: State, t: Tid)
    requires Inv(s) && Enabled(s, Wake(t))
    ensures Core(DoWake(s, t))
  {
    if s.queue == [] {
      UnlockSoon(s, t);
    } else {
      FirstKeepsCore(s, s.queue[0], s.queue[1..]);
      UnlockSoon(Go(s.(queue := s.queue[1..]), s.queue[0], Woken), t);
    }
  }

  lemma KeepsInv(s: State, rcvbuf: int, step: Step)
    requires Inv(s) && Enabled(s, step)
    ensures Inv(Apply(s, rcvbuf, step))
  {
    KeepsWaiters(s, rcvbuf, step);
    if step.Wake? {
      WakeKeepsCore(s, step.t);
    } else {
      KeepsOthers(s, rcvbuf, step);
    }
  }

  lemma KeepsOthers(s: State, rcvbuf: int, step: Step)
    requires Core(s) && Enabled(s, step) && !step.Wake?
    ensures Core(Apply(s, rcvbuf, step))
  {
    KeepsLength(s, rcvbuf, step);
    match step
    case Decide(t) =>
      DecideKeepsLocks(s, t);
      DecideKeepsQueue(s, t);
    case Spin(t) =>
      SpinKeepsLocks(s, t);
      CallKeepsQueue(s, rcvbuf, step);
    case Feed(t) =>
      OtherKeepsLocks(s, rcvbuf, step);
      FeedKeepsQueue(s, t);
    case Enqueue(t, rmem, refuse) =>
      CallKeepsLocks(s, rcvbuf, step);
      EnqueueKeepsQueue(s, rcvbuf, t, rmem, refuse);
    case Unlock(_) =>
      OtherKeepsLocks(s, rcvbuf, step);
      CallKeepsQueue(s, rcvbuf, step);
    case Callback(_) =>
      OtherKeepsLocks(s, rcvbuf, step);
      CallKeepsQueue(s, rcvbuf, step);
    case _ =>
      CallKeepsLocks(s, rcvbuf, step);
      CallKeepsQueue(s, rcvbuf, step);
  }

  // ------------------------------------------------------------------------------------------
  // Whole runs.

  /** An interleaving that can happen. */
  ghost predicate Runs(s: State, rcvbuf: int, run: seq<Step>)
    decreases |run|
  {
    run == [] || (Enabled(s, run[0]) && Runs(Apply(s, rcvbuf, run[0]), rcvbuf, run[1..]))
  }

  ghost function Final(s: State, rcvbuf: int, run: seq<Step>): State
    requires Runs(s, rcvbuf, run)
    decreases |run|
  {
    if run == [] then s else Final(Apply(s, rcvbuf, run[0]), rcvbuf, run[1..])
  }

  lemma {:induction false} RunKeepsInv(s: State, rcvbuf: int, run: seq<Step>)
    requires Inv(s) && Runs(s, rcvbuf, run)
    ensures Inv(Final(s, rcvbuf, run))
    decreases |run|
  {
    if run != [] {
      KeepsInv(s, rcvbuf, run[0]);
      RunKeepsInv(Apply(s, rcvbuf, run[0]), rcvbuf, run[1..]);
    }
  }

  /**
   * After every interleaving: at most one thread is inside, the backlog is empty when no task owns
   * the socket, sk_backlog_rcv has been given the admitted packets in arrival order, each once, up to
   * those still detached or queued; and no wake-up is lost: if slock is free and nobody owns the socket
   * while a thread sleeps on the queue, a woken thread can go on.
   */
  lemma EveryRunIsSafe(s: State, rcvbuf: int, run: seq<Step>)
    requires Initial(s) && Runs(s, rcvbuf, run)
    ensures var e := Final(s, rcvbuf, run);
            && (forall a, b | a in e.pcs && b in e.pcs && Inside(e.pcs[a]) && Inside(e.pcs[b]) :: a == b)
            && (!e.owned ==> e.backlog == [] && e.len == 0 && e.processed == e.admitted)
            && e.admitted == e.processed + Detached(e) + e.backlog
            && (e.slock.None? && !e.owned && (exists t :: t in e.pcs && e.pcs[t].Sleep?) ==>
                  exists u :: u in e.pcs && e.pcs[u].Woken? && Enabled(e, Spin(u)))
  {
    InitialInv(s);
    RunKeepsInv(s, rcvbuf, run);
    var e := Final(s, rcvbuf, run);
    if e.slock.None? && !e.owned && exists t :: t in e.pcs && e.pcs[t].Sleep? {
      var u :| u in e.pcs && OnItsWay(e.pcs[u]);
      assert !HoldsSlock(e.pcs[u]) && Enabled(e, Spin(u));
    }
  }

  // ------------------------------------------------------------------------------------------
  // A drain ends.

  /** How many more packets sk_add_backlog can accept before backlog.len is reset, at the most. */
  function Budget(s: State, rcvbuf: int): nat {
    if s.len <= rcvbuf then rcvbuf + 1 - s.len else 0
  }

  /** Steps the draining thread still needs for what is already queued. */
  function Queued(s: State, t: Tid): nat
    requires t in s.pcs
  {
    match s.pcs[t]
    case RelLoop(_) => 3 * |s.backlog| + 1
    case Drain(batch, _) => |batch| + 3 * |s.backlog| + 2
    case DrainBack(_) => 3 * |s.backlog| + 2
    case _ => 0
  }

  function DrainWork(s: State, rcvbuf: int, t: Tid): nat
    requires t in s.pcs
  {
    3 * Budget(s, rcvbuf) + Queued(s, t)
  }

  /** Each step of the drain costs work, and no step of any other thread adds any. */
  lemma DrainProgress(s: State, rcvbuf: int, t: Tid, step: Step)
    requires Inv(s) && Enabled(s, step) && t in s.pcs && InDrain(s.pcs[t])
    requires InDrain(Apply(s, rcvbuf, step).pcs[t])
    ensures var e := Apply(s, rcvbuf, step);
            DrainWork(e, rcvbuf, t) + (if step.t == t then 1 else 0) <= DrainWork(s, rcvbuf, t)
  {
    assert s.owner == Some(t);
    if step.Wake? {
      assert s.queue != [] ==> s.queue[0] != t;
    } else {
      CoreProgress(s, rcvbuf, t, step);
    }
  }

  lemma CoreProgress(s: State, rcvbuf: int, t: Tid, step: Step)
    requires Core(s) && Enabled(s, step) && !step.Wake? && t in s.pcs && InDrain(s.pcs[t])
    requires InDrain(Apply(s, rcvbuf, step).pcs[t])
    ensures var e := Apply(s, rcvbuf, step);
            DrainWork(e, rcvbuf, t) + (if step.t == t then 1 else 0) <= DrainWork(s, rcvbuf, t)
  {
    assert s.owner == Some(t);
    assert s.pcs[step.t].RelLoop? ==> s.owner == Some(step.t);
  }

  function StepsOf(t: Tid, run: seq<Step>): nat {
    if run == [] then 0 else (if run[0].t == t then 1 else 0) + StepsOf(t, run[1..])
  }

  /** Thread `t` is in the same drain all along the run. */
  ghost predicate StaysInDrain(s: State, rcvbuf: int, t: Tid, run: seq<Step>)
    requires Runs(s, rcvbuf, run)
    decreases |run|
  {
    && t in s.pcs && InDrain(s.pcs[t])
    && (run == [] || StaysInDrain(Apply(s, rcvbuf, run[0]), rcvbuf, t, run[1..]))
  }

  /**
   * Whatever the producers do, one drain takes a number of steps fixed when it starts: backlog.len
   * only grows until it ends, so at most sk_rcvbuf + 1 - backlog.len more packets get in.
   */
  lemma {:induction false} DrainEnds(s: State, rcvbuf: int, t: Tid, run: seq<Step>)
    requires Inv(s) && Runs(s, rcvbuf, run) && StaysInDrain(s, rcvbuf, t, run)
    ensures StepsOf(t, run) <= DrainWork(s, rcvbuf, t)
    decreases |run|
  {
    if run != [] {
      DrainProgress(s, rcvbuf, t, run[0]);
      KeepsInv(s, rcvbuf, run[0]);
      DrainEnds(Apply(s, rcvbuf, run[0]), rcvbuf, t, run[1..]);
    }
  }
}
