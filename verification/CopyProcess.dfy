/**
 * copy_process (kernel/fork.c): a long row of acquisitions with a ladder of cleanup labels, and the
 * promise that a failed fork leaves the counts, lists and locks as it found them.
 */
module CopyProcess {

  import opened Wrappers

  /** Live reference-counted objects of one kind and their counts; a freed object is not in the map. */
  type Pool = map<nat, nat>

  ghost predicate Counted(pool: Pool) {
    forall id | id in pool :: 0 < pool[id]
  }

  function Get(pool: Pool, id: nat): Pool
    requires id in pool
  {
    pool[id := pool[id] + 1]
  }

  /** Drops a reference; the last one frees the object. There is nothing to drop on a freed object. */
  function Put(pool: Pool, id: nat): Pool
    requires id in pool && 0 < pool[id]
  {
    if pool[id] == 1 then pool - {id} else pool[id := pool[id] - 1]
  }

  /** The reference a child takes: one more on the parent's object, or a new object of its own. */
  function Take(pool: Pool, share: bool, id: nat): Pool
    requires share ==> id in pool
  {
    if share then Get(pool, id) else pool[id := 1]
  }

  /** Dropping the child's reference undoes taking it. */
  lemma PutUndoesTake(pool: Pool, share: bool, id: nat)
    requires Counted(pool) && (share <==> id in pool)
    ensures id in Take(pool, share, id) && 0 < Take(pool, share, id)[id]
    ensures Put(Take(pool, share, id), id) == pool
    ensures Counted(Take(pool, share, id))
  {
    if share {
      assert pool[id := pool[id]] == pool;
    } else {
      assert pool[id := 1] - {id} == pool;
    }
  }

  /** Counters of what every task has of its own, taken before the first shareable object. */
  datatype Setup = Setup(tasks: nat, creds: nat, nproc: nat, delayacct: nat, mempolicy: nat, perf: nat,
                         audit: nat, security: nat)

  /** The objects a child may share with its parent. */
  datatype Objects = Objects(semundo: nat, files: Pool, fs: Pool, sighand: Pool, signal: Pool, mm: Pool)

  datatype Contexts = Contexts(namespaces: nat, ioContexts: nat, threads: nat)

  datatype Pids = Pids(pid: Pool, fds: nat, pidFiles: nat)

  /** The delayed-signal nodes on current->signal->multiprocess, the two locks and the pinned cgroups. */
  datatype Shared = Shared(multiprocess: seq<nat>, siglock: bool, tasklistLock: bool, cgroups: nat)

  /** What a fork may touch. `kvBlocks` counts the blocks of key/value tables: buckets and locks. */
  datatype Kernel = Kernel(setup: Setup, objects: Objects, contexts: Contexts, pids: Pids, shared: Shared, kvBlocks: nat)

  datatype CloneFlags = CloneFlags(
    newns: bool, fs: bool, newuser: bool, thread: bool, sighand: bool, vm: bool, parent: bool, newpid: bool,
    detached: bool, pidfd: bool, files: bool, sysvsem: bool, io: bool)

  datatype IoContext = NoContext | Context(ioprioValid: bool)

  /** The calling task: what it holds, and facts about it that the first checks look at. */
  datatype Caller = Caller(
    files: Option<nat>, fs: nat, sighand: nat, signal: nat, mm: Option<nat>, io: IoContext, fsInExec: bool,
    unkillable: bool, foreignPidNs: bool, foreignTimeNs: bool)

  /** Names for the objects a fork may create, and for the delayed-signal node in its frame. */
  datatype Names = Names(files: nat, fs: nat, sighand: nat, signal: nat, mm: nat, pid: nat, node: nat)

  /** Every test that can make a fork fail. */
  datatype Point =
    | SigPending | DupTask | Creds | RlimitNproc | MaxThreads | Mempolicy | SchedFork | Perf | Audit | Security
    | Semundo | Files | Fs | Sighand | Signal | Mm | Namespaces | Io | Thread | AllocPid | PidFd | PidFile
    | PutUser | KvBuckets | KvLocks | CgroupCanFork | DyingPidNs | FatalSignal

  datatype Outcome =
    | Refused               // -EINVAL before anything is done
    | Unwound(lost: nat)    // left through a cleanup label, with the key/value blocks that no label frees
    | Abandoned(lost: nat)  // the return at the failed table allocation, which skips the labels
    | Forked

  /** The pid named init_struct_pid. */
  const INIT_PID: nat := 0

  // ------------------------------------------------------------------------------------------
  // Reference: which tests end a fork, and what a fork that got past them holds.

  /** A clone call: flags, caller, names, init_struct_pid or not, and which tests would fail. */
  datatype Call = Call(f: CloneFlags, c: Caller, n: Names, initPid: bool, fails: Point -> bool) {

    /** The combinations of flags turned down at the start. */
    predicate Refuses() {
      || (f.newns && f.fs) || (f.newuser && f.fs)
      || (f.thread && !f.sighand) || (f.sighand && !f.vm)
      || (f.parent && c.unkillable)
      || (f.thread && (f.newuser || f.newpid || c.foreignPidNs))
      || ((f.thread || f.vm) && c.foreignTimeNs)
      || (f.pidfd && (f.detached || f.thread))
    }

    predicate SetupFails() {
      fails(SigPending) || fails(DupTask) || fails(Creds) || fails(RlimitNproc) || fails(MaxThreads)
    }

    predicate PolicyFails() {
      fails(Mempolicy) || fails(SchedFork) || fails(Perf) || fails(Audit) || fails(Security)
    }

    predicate SemundoFails() {
      f.sysvsem && fails(Semundo)
    }

    predicate FileFails() {
      c.files.Some? && !f.files && fails(Files)
    }

    predicate FsFails() {
      if f.fs then c.fsInExec else fails(Fs)
    }

    predicate SignalFails() {
      || (!f.sighand && fails(Sighand))
      || (!f.thread && fails(Signal))
      || (c.mm.Some? && !f.vm && fails(Mm))
    }

    predicate ContextFails() {
      fails(Namespaces) || (c.io.Context? && !f.io && c.io.ioprioValid && fails(Io)) || fails(Thread)
    }

    predicate PidFails() {
      (!initPid && fails(AllocPid)) || (f.pidfd && (fails(PidFd) || fails(PidFile) || fails(PutUser)))
    }

    predicate LateFails() {
      fails(CgroupCanFork) || fails(DyingPidNs) || fails(FatalSignal)
    }

    /** The blocks that the two allocations of a process yield; either is made whatever the other answers. */
    function KvGot(): nat {
      (if fails(KvBuckets) then 0 else 1) + (if fails(KvLocks) then 0 else 1)
    }

    /** How the part of the fork from alloc_pid on ends. */
    function PidEnds(): Outcome {
      if PidFails() then Unwound(0)
      else if !f.thread && (fails(KvBuckets) || fails(KvLocks)) then Abandoned(KvGot())
      else if LateFails() then Unwound(if f.thread then 0 else 2)
      else Forked
    }

    function ContextEnds(): Outcome {
      if ContextFails() then Unwound(0) else PidEnds()
    }

    function SignalEnds(): Outcome {
      if SignalFails() then Unwound(0) else ContextEnds()
    }

    function FsEnds(): Outcome {
      if FsFails() then Unwound(0) else SignalEnds()
    }

    function FileEnds(): Outcome {
      if FileFails() then Unwound(0) else FsEnds()
    }

    function SemundoEnds(): Outcome {
      if SemundoFails() then Unwound(0) else FileEnds()
    }

    function PolicyEnds(): Outcome {
      if PolicyFails() then Unwound(0) else SemundoEnds()
    }

    function SetupEnds(): Outcome {
      if SetupFails() then Unwound(0) else PolicyEnds()
    }

    function Ends(): Outcome {
      if Refuses() then Refused else SetupEnds()
    }

    /** The caller's objects are live, the new names are unused and the locks are free. */
    ghost predicate Possible(k: Kernel) {
      var o := k.objects;
      && FsPossible(k) && Counted(o.files)
      && (c.files.Some? ==> c.files.value in o.files) && n.files !in o.files
    }

    ghost predicate FsPossible(k: Kernel) {
      SignalPossible(k) && Counted(k.objects.fs) && c.fs in k.objects.fs && n.fs !in k.objects.fs
    }

    ghost predicate SignalPossible(k: Kernel) {
      var o := k.objects;
      && PidPossible(k) && Counted(o.sighand) && Counted(o.signal) && Counted(o.mm)
      && (c.mm.Some? ==> c.mm.value in o.mm) && c.sighand in o.sighand
      && n.sighand !in o.sighand && n.signal !in o.signal && n.mm !in o.mm
    }

    ghost predicate PidPossible(k: Kernel) {
      && Counted(k.pids.pid) && INIT_PID in k.pids.pid && n.pid !in k.pids.pid
      && c.signal in k.objects.signal && !k.shared.siglock && !k.shared.tasklistLock
    }

    function ChildFiles(): nat requires c.files.Some? { if f.files then c.files.value else n.files }
    function ChildFs(): nat { if f.fs then c.fs else n.fs }
    function ChildSighand(): nat { if f.sighand then c.sighand else n.sighand }
    function ChildMm(): nat requires c.mm.Some? { if f.vm then c.mm.value else n.mm }
    function ChildPid(): nat { if initPid then INIT_PID else n.pid }
    predicate ChildIo() { c.io.Context? && (f.io || c.io.ioprioValid) }

    /** The delayed-signal node is on the list, unless the child is a thread. */
    function Listed(k: Kernel): Kernel {
      if f.thread then k else k.(shared := k.shared.(multiprocess := [n.node] + k.shared.multiprocess))
    }

    function WithSetup(k: Kernel): Kernel {
      var s := k.setup;
      k.(setup := s.(tasks := s.tasks + 1, creds := s.creds + 1, nproc := s.nproc + 1, delayacct := s.delayacct + 1))
    }

    function WithPolicies(k: Kernel): Kernel {
      var s := k.setup;
      k.(setup := s.(mempolicy := s.mempolicy + 1, perf := s.perf + 1, audit := s.audit + 1, security := s.security + 1))
    }

    function WithSemundo(k: Kernel): Kernel {
      k.(objects := k.objects.(semundo := k.objects.semundo + (if f.sysvsem then 1 else 0)))
    }

    ghost function WithFiles(k: Kernel): Kernel
      requires Possible(k)
    {
      if c.files.None? then k else
      k.(objects := k.objects.(files := Take(k.objects.files, f.files, ChildFiles())))
    }

    ghost function WithFs(k: Kernel): Kernel
      requires FsPossible(k)
    {
      k.(objects := k.objects.(fs := Take(k.objects.fs, f.fs, ChildFs())))
    }

    ghost function WithSignals(k: Kernel): Kernel
      requires SignalPossible(k)
    {
      var o := k.objects;
      k.(objects := o.(sighand := Take(o.sighand, f.sighand, ChildSighand()),
                       signal := if f.thread then o.signal else Take(o.signal, false, n.signal),
                       mm := if c.mm.None? then o.mm else Take(o.mm, f.vm, ChildMm())))
    }

    function WithContexts(k: Kernel): Kernel {
      var x := k.contexts;
      k.(contexts := Contexts(x.namespaces + 1, x.ioContexts + (if ChildIo() then 1 else 0), x.threads + 1))
    }

    ghost function WithPid(k: Kernel): Kernel
      requires PidPossible(k)
    {
      var p := k.pids;
      var ids := if initPid then p.pid else Take(p.pid, false, n.pid);
      k.(pids := if f.pidfd then Pids(Get(ids, ChildPid()), p.fds + 1, p.pidFiles + 1) else p.(pid := ids))
    }

    // What a fork holds that has got through everything from one acquisition on.

    ghost function FromContexts(k: Kernel): Kernel
      requires PidPossible(k)
    {
      WithPid(WithContexts(k))
    }

    ghost function FromSignals(k: Kernel): Kernel
      requires SignalPossible(k)
    {
      FromContexts(WithSignals(k))
    }

    ghost function FromFs(k: Kernel): Kernel
      requires FsPossible(k)
    {
      FromSignals(WithFs(k))
    }

    ghost function FromFiles(k: Kernel): Kernel
      requires Possible(k)
    {
      FromFs(WithFiles(k))
    }

    ghost function FromSemundo(k: Kernel): Kernel
      requires Possible(k)
    {
      FromFiles(WithSemundo(k))
    }

    ghost function FromPolicies(k: Kernel): Kernel
      requires Possible(k)
    {
      FromSemundo(WithPolicies(k))
    }

    ghost function FromSetup(k: Kernel): Kernel
      requires Possible(k)
    {
      FromPolicies(WithSetup(k))
    }

    function Keeping(k: Kernel, blocks: nat): Kernel {
      k.(kvBlocks := k.kvBlocks + blocks)
    }

    /** The last part: the tables are kept, a thread joins the signal struct, the node leaves the list. */
    ghost function Linked(k: Kernel): Kernel
      requires c.signal in k.objects.signal
    {
      k.(kvBlocks := k.kvBlocks + (if f.thread then 0 else 2),
         objects := if f.thread then k.objects.(signal := Get(k.objects.signal, c.signal)) else k.objects,
         shared := k.shared.(multiprocess := Without(k.shared.multiprocess, n.node)))
    }
  }

  function Without(nodes: seq<nat>, node: nat): seq<nat> {
    if nodes == [] then [] else
    (if nodes[0] == node then [] else [nodes[0]]) + Without(nodes[1..], node)
  }

  lemma {:induction false} WithoutAbsent(nodes: seq<nat>, node: nat)
    requires node !in nodes
    ensures Without(nodes, node) == nodes
  {
    if nodes != [] {
      WithoutAbsent(nodes[1..], node);
    }
  }

  /** No acquisition before the last part touches the list of delayed signals. */
  lemma ListIsApart(a: Call, k: Kernel)
    requires a.Possible(k)
    ensures a.FromSetup(a.Listed(k)) == a.FromSetup(k).(shared := a.Listed(k).shared)
    ensures a.FromSetup(k).shared == k.shared
  {
    var l := a.Listed(k);
    var (s, s') := (a.WithSemundo(a.WithPolicies(a.WithSetup(k))), a.WithSemundo(a.WithPolicies(a.WithSetup(l))));
    assert s' == s.(shared := l.shared);
    var (g, g') := (a.WithFs(a.WithFiles(s)), a.WithFs(a.WithFiles(s')));
    assert g' == g.(shared := l.shared);
    SignalsApart(a, g, l.shared);
  }

  lemma SignalsApart(a: Call, k: Kernel, shared: Shared)
    requires a.SignalPossible(k) && !shared.siglock && !shared.tasklistLock
    ensures a.FromSignals(k.(shared := shared)) == a.FromSignals(k).(shared := shared)
    ensures a.FromSignals(k).shared == k.shared
  {
    var (g, g') := (a.WithSignals(k), a.WithSignals(k.(shared := shared)));
    assert g' == g.(shared := shared);
  }

  /** A fork that gets through leaves the list of delayed signals as it was before its node. */
  lemma NodeLeaves(a: Call, k: Kernel)
    requires a.Possible(k) && a.n.node !in k.shared.multiprocess
    ensures a.c.signal in a.FromSetup(k).objects.signal
    ensures a.Linked(a.FromSetup(a.Listed(k))) == a.Linked(a.FromSetup(k))
  {
    NodeAlone(a, k);
    WithoutAbsent(k.shared.multiprocess, a.n.node);
    ListIsApart(a, k);
  }

  /** The node is taken off the list it was put on, and nothing else is. */
  lemma NodeAlone(a: Call, k: Kernel)
    requires a.n.node !in k.shared.multiprocess
    ensures Without(a.Listed(k).shared.multiprocess, a.n.node) == k.shared.multiprocess
  {
    WithoutAbsent(k.shared.multiprocess, a.n.node);
    assert ([a.n.node] + k.shared.multiprocess)[1..] == k.shared.multiprocess;
  }

  // ------------------------------------------------------------------------------------------
  // copy_process. Each block is left for the cleanup code behind it, as each goto does.

  method CopyProcess(a: Call, before: Kernel) returns (r: Outcome, k: Kernel)
    requires a.Possible(before) && a.n.node !in before.shared.multiprocess
    ensures r == a.Ends()
    // a failed fork that is refused or leaves through the labels
    ensures r.Refused? ==> k == before
    ensures r.Unwound? ==> k == a.Keeping(before, r.lost)
    // the return that skips the labels keeps everything acquired so far
    ensures r.Abandoned? ==> k == a.Keeping(a.FromSetup(a.Listed(before)), r.lost)
    ensures r.Forked? ==> k == a.Linked(a.FromSetup(before))
  {
    k := before;
    if a.Refuses() {
      return Refused, k;
    }
    k := k.(shared := k.shared.(siglock := true));
    if !a.f.thread {
      k := k.(shared := k.shared.(multiprocess := [a.n.node] + k.shared.multiprocess));
    }
    k := k.(shared := k.shared.(siglock := false));
    assert k == a.Listed(before);
    r, k := SetUpTask(a, k);
    if r.Forked? {
      NodeLeaves(a, before);
    } else if r.Unwound? {
      // fork_out
      NodeAlone(a, before);
      k := k.(shared := k.shared.(siglock := true));
      k := k.(shared := k.shared.(multiprocess := Without(k.shared.multiprocess, a.n.node)));
      k := k.(shared := k.shared.(siglock := false));
    }
  }

  /** From dup_task_struct to delayacct_tsk_init. */
  method SetUpTask(a: Call, before: Kernel) returns (r: Outcome, k: Kernel)
    requires a.Possible(before)
    ensures r == a.SetupEnds()
    ensures r.Unwound? ==> k == a.Keeping(before, r.lost)
    ensures r.Abandoned? ==> k == a.Keeping(a.FromSetup(before), r.lost)
    ensures r.Forked? ==> k == a.Linked(a.FromSetup(before))
  {
    r, k := Unwound(0), before;
    var s := k.setup;
    label forkOut: {
      if a.fails(SigPending) || a.fails(DupTask) { break forkOut; }
      s := s.(tasks := s.tasks + 1);
      label badForkFree: {
        if a.fails(Creds) { break badForkFree; }
        s := s.(creds := s.creds + 1, nproc := s.nproc + 1);
        label cleanupCount: {
          if a.fails(RlimitNproc) || a.fails(MaxThreads) { break cleanupCount; }
          s := s.(delayacct := s.delayacct + 1);
          r, k := SetUpPolicies(a, k.(setup := s));
          if !r.Unwound? {
            return;
          }
          s := s.(delayacct := s.delayacct - 1);
        }
        s := s.(creds := s.creds - 1, nproc := s.nproc - 1);
      }
      s := s.(tasks := s.tasks - 1);
    }
    k := k.(setup := s);
  }

  /** From mpol_dup to security_task_alloc. */
  method SetUpPolicies(a: Call, before: Kernel) returns (r: Outcome, k: Kernel)
    requires a.Possible(before)
    ensures r == a.PolicyEnds()
    ensures r.Unwound? ==> k == a.Keeping(before, r.lost)
    ensures r.Abandoned? ==> k == a.Keeping(a.FromPolicies(before), r.lost)
    ensures r.Forked? ==> k == a.Linked(a.FromPolicies(before))
  {
    r, k := Unwound(0), before;
    var s := k.setup;
    label cleanupThreadgroupLock: {
      if a.fails(Mempolicy) { break cleanupThreadgroupLock; }
      s := s.(mempolicy := s.mempolicy + 1);
      label cleanupPolicy: {
        if a.fails(SchedFork) || a.fails(Perf) { break cleanupPolicy; }
        s := s.(perf := s.perf + 1);
        label cleanupPerf: {
          if a.fails(Audit) { break cleanupPerf; }
          s := s.(audit := s.audit + 1);
          label cleanupAudit: {
            if a.fails(Security) { break cleanupAudit; }
            s := s.(security := s.security + 1);
            r, k := CopySemundo(a, k.(setup := s));
            if !r.Unwound? {
              return;
            }
            s := s.(security := s.security - 1);
          }
          s := s.(audit := s.audit - 1);
        }
        s := s.(perf := s.perf - 1);
      }
      s := s.(mempolicy := s.mempolicy - 1);
    }
    k := k.(setup := s);
  }

  /** copy_semundo. */
  method CopySemundo(a: Call, before: Kernel) returns (r: Outcome, k: Kernel)
    requires a.Possible(before)
    ensures r == a.SemundoEnds()
    ensures r.Unwound? ==> k == a.Keeping(before, r.lost)
    ensures r.Abandoned? ==> k == a.Keeping(a.FromSemundo(before), r.lost)
    ensures r.Forked? ==> k == a.Linked(a.FromSemundo(before))
  {
    r, k := Unwound(0), before;
    var o := k.objects;
    label cleanupSecurity: {
      if a.f.sysvsem && a.fails(Semundo) { break cleanupSecurity; }
      if a.f.sysvsem {
        o := o.(semundo := o.semundo + 1);
      }
      r, k := CopyFiles(a, k.(objects := o));
      if !r.Unwound? {
        return;
      }
      if a.f.sysvsem {
        o := o.(semundo := o.semundo - 1);
      }
    }
    k := k.(objects := o);
  }

  /** copy_files. */
  method CopyFiles(a: Call, before: Kernel) returns (r: Outcome, k: Kernel)
    requires a.Possible(before)
    ensures r == a.FileEnds()
    ensures r.Unwound? ==> k == a.Keeping(before, r.lost)
    ensures r.Abandoned? ==> k == a.Keeping(a.FromFiles(before), r.lost)
    ensures r.Forked? ==> k == a.Linked(a.FromFiles(before))
  {
    r, k := Unwound(0), before;
    var o := k.objects;
    label cleanupSemundo: {
      if a.c.files.Some? {
        PutUndoesTake(o.files, a.f.files, a.ChildFiles());
        if !a.f.files && a.fails(Files) { break cleanupSemundo; }
        o := o.(files := Take(o.files, a.f.files, a.ChildFiles()));
      }
      r, k := CopyFs(a, k.(objects := o));
      if !r.Unwound? {
        return;
      }
      if a.c.files.Some? {
        o := o.(files := Put(o.files, a.ChildFiles()));
      }
    }
    k := k.(objects := o);
  }

  /** copy_fs. */
  method CopyFs(a: Call, before: Kernel) returns (r: Outcome, k: Kernel)
    requires a.FsPossible(before)
    ensures r == a.FsEnds()
    ensures r.Unwound? ==> k == a.Keeping(before, r.lost)
    ensures r.Abandoned? ==> k == a.Keeping(a.FromFs(before), r.lost)
    ensures r.Forked? ==> k == a.Linked(a.FromFs(before))
  {
    r, k := Unwound(0), before;
    var o := k.objects;
    PutUndoesTake(o.fs, a.f.fs, a.ChildFs());
    label cleanupFiles: {
      if (if a.f.fs then a.c.fsInExec else a.fails(Fs)) { break cleanupFiles; }
      o := o.(fs := Take(o.fs, a.f.fs, a.ChildFs()));
      r, k := CopySignals(a, k.(objects := o));
      if !r.Unwound? {
        return;
      }
      o := o.(fs := Put(o.fs, a.ChildFs()));
    }
    k := k.(objects := o);
  }

  /** From copy_sighand to copy_mm. */
  method CopySignals(a: Call, before: Kernel) returns (r: Outcome, k: Kernel)
    requires a.SignalPossible(before)
    ensures r == a.SignalEnds()
    ensures r.Unwound? ==> k == a.Keeping(before, r.lost)
    ensures r.Abandoned? ==> k == a.Keeping(a.FromSignals(before), r.lost)
    ensures r.Forked? ==> k == a.Linked(a.FromSignals(before))
  {
    r, k := Unwound(0), before;
    var f, c, n, o := a.f, a.c, a.n, k.objects;
    PutUndoesTake(o.sighand, f.sighand, a.ChildSighand());
    PutUndoesTake(o.signal, false, n.signal);
    if c.mm.Some? {
      PutUndoesTake(o.mm, f.vm, a.ChildMm());
    }
    label cleanupFs: {
      if !f.sighand && a.fails(Sighand) { break cleanupFs; }
      o := o.(sighand := Take(o.sighand, f.sighand, a.ChildSighand()));
      label cleanupSighand: {
        if !f.thread {
          if a.fails(Signal) { break cleanupSighand; }
          o := o.(signal := Take(o.signal, false, n.signal));
        }
        label cleanupSignal: {
          if c.mm.Some? {
            if !f.vm && a.fails(Mm) { break cleanupSignal; }
            o := o.(mm := Take(o.mm, f.vm, a.ChildMm()));
          }
          r, k := CopyContexts(a, k.(objects := o));
          if !r.Unwound? {
            return;
          }
          if c.mm.Some? {
            o := o.(mm := Put(o.mm, a.ChildMm()));
          }
        }
        if !f.thread {
          o := o.(signal := Put(o.signal, n.signal));
        }
      }
      o := o.(sighand := Put(o.sighand, a.ChildSighand()));
    }
    k := k.(objects := o);
  }

  /** From copy_namespaces to copy_thread. */
  method CopyContexts(a: Call, before: Kernel) returns (r: Outcome, k: Kernel)
    requires a.PidPossible(before)
    ensures r == a.ContextEnds()
    ensures r.Unwound? ==> k == a.Keeping(before, r.lost)
    ensures r.Abandoned? ==> k == a.Keeping(a.FromContexts(before), r.lost)
    ensures r.Forked? ==> k == a.Linked(a.FromContexts(before))
  {
    r, k := Unwound(0), before;
    var x := k.contexts;
    label cleanupMm: {
      if a.fails(Namespaces) { break cleanupMm; }
      x := x.(namespaces := x.namespaces + 1);
      label cleanupNamespaces: {
        if a.c.io.Context? && !a.f.io && a.c.io.ioprioValid && a.fails(Io) { break cleanupNamespaces; }
        if a.ChildIo() {
          x := x.(ioContexts := x.ioContexts + 1);
        }
        label cleanupIo: {
          if a.fails(Thread) { break cleanupIo; }
          x := x.(threads := x.threads + 1);
          r, k := AttachPid(a, k.(contexts := x));
          if !r.Unwound? {
            return;
          }
          x := x.(threads := x.threads - 1);
        }
        if a.ChildIo() {
          x := x.(ioContexts := x.ioContexts - 1);
        }
      }
      x := x.(namespaces := x.namespaces - 1);
    }
    k := k.(contexts := x);
  }

  /** From alloc_pid to the key/value tables. */
  method AttachPid(a: Call, before: Kernel) returns (r: Outcome, k: Kernel)
    requires a.PidPossible(before)
    ensures r == a.PidEnds()
    ensures r.Unwound? ==> k == a.Keeping(before, r.lost)
    ensures r.Abandoned? ==> k == a.Keeping(a.WithPid(before), r.lost)
    ensures r.Forked? ==> k == a.Linked(a.WithPid(before))
  {
    r, k := Unwound(0), before;
    var f, pid, p := a.f, a.ChildPid(), k.pids;
    PutUndoesTake(p.pid, false, a.n.pid);
    label cleanupThread: {
      if !a.initPid {
        if a.fails(AllocPid) { break cleanupThread; }
        p := p.(pid := Take(p.pid, false, a.n.pid));
      }
      PutUndoesTake(p.pid, true, pid);
      label freePid: {
        if f.pidfd {
          if a.fails(PidFd) { break freePid; }
          p := p.(fds := p.fds + 1);
          if a.fails(PidFile) {
            p := p.(fds := p.fds - 1);
            break freePid;
          }
          p := p.(pidFiles := p.pidFiles + 1, pid := Get(p.pid, pid));
        }
        label putPidFd: {
          if f.pidfd && a.fails(PutUser) { break putPidFd; }
          k := k.(pids := p);
          if !f.thread {
            var got := 0;
            if !a.fails(KvBuckets) {
              got := got + 1;
            }
            if !a.fails(KvLocks) {
              got := got + 1;
            }
            k := k.(kvBlocks := k.kvBlocks + got);
            if a.fails(KvBuckets) || a.fails(KvLocks) {
              return Abandoned(got), k;
            }
          }
          r, k := LinkTask(a, k);
          if r.Forked? {
            return;
          }
        }
        if f.pidfd {
          p := p.(pidFiles := p.pidFiles - 1, pid := Put(p.pid, pid), fds := p.fds - 1);
        }
      }
      if !a.initPid {
        p := p.(pid := Put(p.pid, a.n.pid));
      }
    }
    k := k.(pids := p);
  }

  /** From cgroup_can_fork to the end, with both locks held while the task becomes visible. */
  method LinkTask(a: Call, before: Kernel) returns (r: Outcome, k: Kernel)
    requires a.c.signal in before.objects.signal && !before.shared.siglock && !before.shared.tasklistLock
    ensures r == if a.LateFails() then Unwound(if a.f.thread then 0 else 2) else Forked
    ensures r.Unwound? ==> k == before
    ensures r.Forked? ==> k == a.Linked(before).(kvBlocks := before.kvBlocks)
  {
    k := before;
    var s := k.shared;
    label putPidFd: {
      if a.fails(CgroupCanFork) { break putPidFd; }
      s := s.(cgroups := s.cgroups + 1);
      s := s.(tasklistLock := true);
      s := s.(siglock := true);
      label cancelCgroup: {
        if a.fails(DyingPidNs) || a.fails(FatalSignal) { break cancelCgroup; }
        if a.f.thread {
          k := k.(objects := k.objects.(signal := Get(k.objects.signal, a.c.signal)));
        }
        s := s.(multiprocess := Without(s.multiprocess, a.n.node));
        s := s.(siglock := false);
        s := s.(tasklistLock := false);
        s := s.(cgroups := s.cgroups - 1);
        return Forked, k.(shared := s);
      }
      s := s.(siglock := false);
      s := s.(tasklistLock := false);
      s := s.(cgroups := s.cgroups - 1);
    }
    return Unwound(if a.f.thread then 0 else 2), k.(shared := s);
  }
}
