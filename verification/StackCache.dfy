/**
 * The per-CPU cache of kernel stacks (kernel/fork.c, CONFIG_VMAP_STACK): tasks allocate and free
 * stacks while migrating between CPUs at any step, and a CPU that goes down has its slots emptied.
 */
module StackCache {

  import opened Wrappers

  type Tid = nat
  type Cpu = nat
  type Stack = nat

  /** NR_CACHED_STACKS. */
  const SLOTS: nat := 2

  datatype Slot = Slot(cpu: Cpu, i: nat)

  datatype Pc =
    | Idle
    | AllocScan(i: nat)               // about to exchange slot `i` of its CPU with NULL
    | AllocGot(stack: Stack)          // has a cached stack, not yet cleared
    | AllocReady(stack: Stack)        // about to hand the stack to the new task
    | FreeScan(stack: Stack, i: nat)  // about to put the stack into slot `i` of its CPU if that is NULL
    | Hot(slot: Slot)                 // free_vm_stack_cache: about to look at a slot of a dead CPU
    | HotClear(slot: Slot)            // has freed what was in it, about to store NULL

  /** Where a stack area is. */
  datatype Place = InSlot(slot: Slot) | InHand(t: Tid) | OfTask(x: nat) | Released

  /**
   * `cache` holds the slots that are not NULL and `tasks` maps a task to its stack. `callback` and
   * `unread` say, for a dead CPU, which thread empties its slots and which it has not looked at yet;
   * `stale` are the slots it has freed and not yet overwritten with NULL. `place` records where each stack
   * was put last, `dirty` counts stacks handed out uncleared and `freed` has an element for every vfree
   * of a stack. The code stores only the first two.
   */
  datatype State = State(
    cache: map<Slot, Stack>, online: set<Cpu>, callback: map<Cpu, Tid>, unread: map<Cpu, nat>,
    stale: set<Slot>, cpuOf: map<Tid, Cpu>, pcs: map<Tid, Pc>, tasks: map<nat, Stack>, clean: set<Stack>,
    place: map<Stack, Place>, dirty: nat, freed: multiset<Stack>)

  datatype Step =
    | StartAlloc(t: Tid) | Xchg(t: Tid) | Memset(t: Tid) | Vmalloc(t: Tid, got: Option<Stack>)
    | HandOut(t: Tid, x: nat) | GiveUp(t: Tid)
    | StartFree(t: Tid, x: nat) | Cmpxchg(t: Tid) | Vfree(t: Tid)
    | Migrate(t: Tid, cpu: Cpu) | UseStack(t: Tid, x: nat)
    | CpuDown(t: Tid, cpu: Cpu) | CpuUp(t: Tid, cpu: Cpu)
    | HotFree(t: Tid) | HotStore(t: Tid)

  predicate Enabled(s: State, step: Step) {
    step.t in s.pcs && step.t in s.cpuOf &&
    var pc := s.pcs[step.t];
    match step
    case StartAlloc(_) => pc.Idle?
    case Xchg(_) => pc.AllocScan? && pc.i < SLOTS
    case Memset(_) => pc.AllocGot?
    case Vmalloc(_, got) => pc.AllocScan? && pc.i == SLOTS && (got.Some? ==> got.value !in s.place)
    case HandOut(_, x) => pc.AllocReady? && x !in s.tasks
    case GiveUp(_) => pc.AllocReady?
    case StartFree(_, x) => pc.Idle? && x in s.tasks
    case Cmpxchg(_) => pc.FreeScan? && pc.i < SLOTS
    case Vfree(_) => pc.FreeScan? && pc.i == SLOTS
    case Migrate(_, cpu) => cpu in s.online
    case UseStack(_, x) => x in s.tasks
    case CpuDown(_, cpu) => pc.Idle? && cpu in s.online && forall u | u in s.cpuOf :: s.cpuOf[u] != cpu
    case CpuUp(_, cpu) => cpu !in s.online && cpu !in s.callback
    case HotFree(_) => pc.Hot?
    case HotStore(_) => pc.HotClear?
  }

  function Go(s: State, t: Tid, pc: Pc): State {
    s.(pcs := s.pcs[t := pc])
  }

  function Move(s: State, stack: Stack, p: Place): State {
    s.(place := s.place[stack := p])
  }

  /** One exchange of this_cpu_xchg on the CPU the thread is on. */
  function DoXchg(s: State, t: Tid): State
    requires Enabled(s, Xchg(t))
  {
    var slot := Slot(s.cpuOf[t], s.pcs[t].i);
    if slot !in s.cache then Go(s, t, AllocScan(slot.i + 1)) else
    Go(Move(s.(cache := s.cache - {slot}), s.cache[slot], InHand(t)), t, AllocGot(s.cache[slot]))
  }

  /** One this_cpu_cmpxchg against NULL. */
  function DoCmpxchg(s: State, t: Tid): State
    requires Enabled(s, Cmpxchg(t))
  {
    var slot, stack := Slot(s.cpuOf[t], s.pcs[t].i), s.pcs[t].stack;
    if slot in s.cache then Go(s, t, FreeScan(stack, slot.i + 1)) else
    Go(Move(s.(cache := s.cache[slot := stack]), stack, InSlot(slot)), t, Idle)
  }

  /** free_vm_stack_cache looks at a slot: vfree of what is in it, or nothing. */
  function DoHotFree(s: State, t: Tid): State
    requires Enabled(s, HotFree(t))
  {
    var slot := s.pcs[t].slot;
    var unread := s.unread[slot.cpu := slot.i + 1];
    if slot !in s.cache then NextSlot(s, t, slot).(unread := unread) else
    Go(Move(s.(unread := unread, stale := s.stale + {slot}, freed := s.freed + multiset{s.cache[slot]}),
            s.cache[slot], Released), t, HotClear(slot))
  }

  /** The for loop of free_vm_stack_cache goes on or ends. */
  function NextSlot(s: State, t: Tid, slot: Slot): State {
    if slot.i + 1 < SLOTS then Go(s, t, Hot(Slot(slot.cpu, slot.i + 1)))
    else Go(s.(callback := s.callback - {slot.cpu}), t, Idle)
  }

  function Apply(s: State, step: Step): State
    requires Enabled(s, step)
  {
    var t := step.t;
    var pc := s.pcs[t];
    match step
    case StartAlloc(_) => Go(s, t, AllocScan(0))
    case Xchg(_) => DoXchg(s, t)
    case Memset(_) => Go(s.(clean := s.clean + {pc.stack}), t, AllocReady(pc.stack))
    case Vmalloc(_, got) =>
      // __vmalloc_node_range returns zeroed memory (__GFP_ZERO)
      if got.None? then Go(s, t, Idle)
      else Go(Move(s.(clean := s.clean + {got.value}), got.value, InHand(t)), t, AllocReady(got.value))
    case HandOut(_, x) =>
      Go(Move(s.(tasks := s.tasks[x := pc.stack], dirty := if pc.stack in s.clean then s.dirty else s.dirty + 1),
              pc.stack, OfTask(x)), t, Idle)
    case GiveUp(_) => Go(s, t, FreeScan(pc.stack, 0))
    case StartFree(_, x) => Go(Move(s.(tasks := s.tasks - {x}), s.tasks[x], InHand(t)), t, FreeScan(s.tasks[x], 0))
    case Cmpxchg(_) => DoCmpxchg(s, t)
    case Vfree(_) => Go(Move(s.(freed := s.freed + multiset{pc.stack}), pc.stack, Released), t, Idle)
    case Migrate(_, cpu) => s.(cpuOf := s.cpuOf[t := cpu])
    case UseStack(_, x) => s.(clean := s.clean - {s.tasks[x]})
    case CpuDown(_, cpu) =>
      Go(s.(online := s.online - {cpu}, callback := s.callback[cpu := t], unread := s.unread[cpu := 0]), t, Hot(Slot(cpu, 0)))
    case CpuUp(_, cpu) => s.(online := s.online + {cpu})
    case HotFree(_) => DoHotFree(s, t)
    case HotStore(_) => NextSlot(s.(cache := s.cache - {pc.slot}, stale := s.stale - {pc.slot}), t, pc.slot)
  }

  /** No stack exists yet, every slot is NULL, and each thread is on a running CPU. */
  ghost predicate Initial(s: State) {
    && s.cache == map[] && s.callback == map[] && s.unread == map[] && s.stale == {} && s.tasks == map[] && s.clean == {}
    && s.place == map[] && s.dirty == 0 && s.freed == multiset{}
    && (forall t | t in s.pcs :: s.pcs[t].Idle? && t in s.cpuOf && s.cpuOf[t] in s.online)
  }

  // ------------------------------------------------------------------------------------------
  // The invariant.

  /** The stack a thread holds between two steps. */
  function Holds(pc: Pc): Option<Stack> {
    match pc
    case AllocGot(stack) => Some(stack)
    case AllocReady(stack) => Some(stack)
    case FreeScan(stack, _) => Some(stack)
    case _ => None
  }

  predicate InCallback(pc: Pc) {
    pc.Hot? || pc.HotClear?
  }

  /** The first slot that the callback has not looked at yet. */
  function Unread(pc: Pc): nat
    requires InCallback(pc)
  {
    if pc.Hot? then pc.slot.i else pc.slot.i + 1
  }

  type Pcs = map<Tid, Pc>
  type Places = map<Stack, Place>

  ghost predicate ThreadsOk(pcs: Pcs, cpuOf: map<Tid, Cpu>, online: set<Cpu>) {
    && (forall t | t in pcs :: t in cpuOf && cpuOf[t] in online)
    && (forall t | t in pcs && (pcs[t].AllocScan? || pcs[t].FreeScan?) :: pcs[t].i <= SLOTS)
  }

  /** A dead CPU is emptied by one thread; how far it got. */
  ghost predicate CallbacksOk(pcs: Pcs, online: set<Cpu>, callback: map<Cpu, Tid>, unread: map<Cpu, nat>, stale: set<Slot>) {
    && (forall t | t in pcs && InCallback(pcs[t]) :: pcs[t].slot.cpu in callback && callback[pcs[t].slot.cpu] == t)
    && (forall c | c in callback ::
          && c !in online && c in unread && callback[c] in pcs && InCallback(pcs[callback[c]])
          && pcs[callback[c]].slot.cpu == c && pcs[callback[c]].slot.i < SLOTS
          && unread[c] == Unread(pcs[callback[c]]))
    && (forall k | k in stale :: k.cpu in callback && pcs[callback[k.cpu]] == HotClear(k))
    && (forall c | c in unread && c !in online && c !in callback :: unread[c] == SLOTS)
  }

  /** The slot counts: its CPU runs, or nobody has looked at it since the CPU went down. */
  predicate Live(online: set<Cpu>, unread: map<Cpu, nat>, k: Slot) {
    k.cpu in online || (k.cpu in unread && unread[k.cpu] <= k.i)
  }

  ghost predicate SlotsOk(cache: map<Slot, Stack>, online: set<Cpu>, unread: map<Cpu, nat>, stale: set<Slot>, place: Places) {
    && (forall k | k in cache :: k.i < SLOTS && (Live(online, unread, k) || k in stale))
    && (forall k | k in cache && Live(online, unread, k) :: cache[k] in place && place[cache[k]] == InSlot(k))
    && (forall x | x in place && place[x].InSlot? ::
          place[x].slot in cache && cache[place[x].slot] == x && Live(online, unread, place[x].slot))
  }

  ghost predicate HandsOk(pcs: Pcs, place: Places) {
    && (forall t | t in pcs && Holds(pcs[t]).Some? ::
          Holds(pcs[t]).value in place && place[Holds(pcs[t]).value] == InHand(t))
    && (forall x | x in place && place[x].InHand? :: place[x].t in pcs && Holds(pcs[place[x].t]) == Some(x))
  }

  ghost predicate TasksOk(tasks: map<nat, Stack>, place: Places) {
    && (forall n | n in tasks :: tasks[n] in place && place[tasks[n]] == OfTask(n))
    && (forall x | x in place && place[x].OfTask? :: place[x].x in tasks && tasks[place[x].x] == x)
  }

  ghost predicate CleanOk(pcs: Pcs, clean: set<Stack>) {
    forall t | t in pcs && pcs[t].AllocReady? :: pcs[t].stack in clean
  }

  ghost predicate Inv(s: State) {
    && ThreadsOk(s.pcs, s.cpuOf, s.online) && CallbacksOk(s.pcs, s.online, s.callback, s.unread, s.stale)
    && SlotsOk(s.cache, s.online, s.unread, s.stale, s.place)
    && HandsOk(s.pcs, s.place) && TasksOk(s.tasks, s.place)
    && CleanOk(s.pcs, s.clean) && s.dirty == 0
  }

  lemma InitialInv(s: State)
    requires Initial(s)
    ensures Inv(s)
  {
  }

  // Single changes, each seen by one part of the invariant.

  /** Neither before nor after does the stack sit in a slot. */
  lemma NotInSlot(s: State, x: Stack, p: Place)
    requires SlotsOk(s.cache, s.online, s.unread, s.stale, s.place)
    requires (x in s.place ==> !s.place[x].InSlot?) && !p.InSlot?
    ensures SlotsOk(s.cache, s.online, s.unread, s.stale, s.place[x := p])
  {
  }

  lemma NotOfTask(tasks: map<nat, Stack>, place: Places, x: Stack, p: Place)
    requires TasksOk(tasks, place) && (x in place ==> !place[x].OfTask?) && !p.OfTask?
    ensures TasksOk(tasks, place[x := p])
  {
  }

  lemma NotInHand(pcs: Pcs, place: Places, x: Stack, p: Place)
    requires HandsOk(pcs, place) && (x in place ==> !place[x].InHand?) && !p.InHand?
    ensures HandsOk(pcs, place[x := p])
  {
  }

  lemma SameHand(pcs: Pcs, place: Places, t: Tid, pc: Pc)
    requires HandsOk(pcs, place) && t in pcs && Holds(pcs[t]) == Holds(pc)
    ensures HandsOk(pcs[t := pc], place)
  {
  }

  lemma Grab(pcs: Pcs, place: Places, t: Tid, pc: Pc, x: Stack)
    requires HandsOk(pcs, place) && t in pcs && Holds(pcs[t]).None? && Holds(pc) == Some(x)
    requires x in place ==> !place[x].InHand?
    ensures HandsOk(pcs[t := pc], place[x := InHand(t)])
  {
  }

  lemma Drop(pcs: Pcs, place: Places, t: Tid, pc: Pc, p: Place)
    requires HandsOk(pcs, place) && t in pcs && Holds(pcs[t]).Some? && Holds(pc).None? && !p.InHand?
    ensures HandsOk(pcs[t := pc], place[Holds(pcs[t]).value := p])
  {
  }

  /** A thread outside the callback moves on. */
  lemma Outside(s: State, t: Tid, pc: Pc)
    requires ThreadsOk(s.pcs, s.cpuOf, s.online) && CallbacksOk(s.pcs, s.online, s.callback, s.unread, s.stale)
    requires t in s.pcs && !InCallback(s.pcs[t]) && !InCallback(pc)
    requires pc.AllocScan? || pc.FreeScan? ==> pc.i <= SLOTS
    ensures ThreadsOk(s.pcs[t := pc], s.cpuOf, s.online)
    ensures CallbacksOk(s.pcs[t := pc], s.online, s.callback, s.unread, s.stale)
  {
  }

  // The steps.

  lemma LocalKeepsInv(s: State, step: Step)
    requires Inv(s) && Enabled(s, step)
    requires step.StartAlloc? || step.Memset? || step.GiveUp? || step.Migrate? || step.UseStack?
    ensures Inv(Apply(s, step))
  {
    if !step.Migrate? && !step.UseStack? {
      var pc := Apply(s, step).pcs[step.t];
      Outside(s, step.t, pc);
      SameHand(s.pcs, s.place, step.t, pc);
    }
  }

  lemma VmallocKeepsInv(s: State, t: Tid, got: Option<Stack>)
    requires Inv(s) && Enabled(s, Vmalloc(t, got))
    ensures Inv(Apply(s, Vmalloc(t, got)))
  {
    var pc := Apply(s, Vmalloc(t, got)).pcs[t];
    Outside(s, t, pc);
    if got.Some? {
      NotInSlot(s, got.value, InHand(t));
      NotOfTask(s.tasks, s.place, got.value, InHand(t));
      Grab(s.pcs, s.place, t, pc, got.value);
    } else {
      SameHand(s.pcs, s.place, t, pc);
    }
  }

  lemma GiveToTask(tasks: map<nat, Stack>, place: Places, x: nat, stack: Stack)
    requires TasksOk(tasks, place) && x !in tasks && (stack in place ==> !place[stack].OfTask?)
    ensures TasksOk(tasks[x := stack], place[stack := OfTask(x)])
  {
  }

  lemma HandOutKeepsInv(s: State, t: Tid, x: nat)
    requires Inv(s) && Enabled(s, HandOut(t, x))
    ensures Inv(Apply(s, HandOut(t, x)))
  {
    assert s.place[s.pcs[t].stack] == InHand(t);
    GiveToTask(s.tasks, s.place, x, s.pcs[t].stack);
    Outside(s, t, Idle);
    NotInSlot(s, s.pcs[t].stack, OfTask(x));
    Drop(s.pcs, s.place, t, Idle, OfTask(x));
  }

  lemma StartFreeKeepsInv(s: State, t: Tid, x: nat)
    requires Inv(s) && Enabled(s, StartFree(t, x))
    ensures Inv(Apply(s, StartFree(t, x)))
  {
    var stack := s.tasks[x];
    assert s.place[stack] == OfTask(x);
    Outside(s, t, FreeScan(stack, 0));
    NotInSlot(s, stack, InHand(t));
    Grab(s.pcs, s.place, t, FreeScan(stack, 0), stack);
  }

  lemma VfreeKeepsInv(s: State, t: Tid)
    requires Inv(s) && Enabled(s, Vfree(t))
    ensures Inv(Apply(s, Vfree(t)))
  {
    Outside(s, t, Idle);
    NotInSlot(s, s.pcs[t].stack, Released);
    NotOfTask(s.tasks, s.place, s.pcs[t].stack, Released);
    Drop(s.pcs, s.place, t, Idle, Released);
  }

  lemma XchgTakes(s: State, t: Tid)
    requires Inv(s) && Enabled(s, Xchg(t)) && Slot(s.cpuOf[t], s.pcs[t].i) in s.cache
    ensures Inv(DoXchg(s, t))
  {
    var slot := Slot(s.cpuOf[t], s.pcs[t].i);
    var stack := s.cache[slot];
    assert Live(s.online, s.unread, slot) && s.place[stack] == InSlot(slot);
    Outside(s, t, AllocGot(stack));
    NotOfTask(s.tasks, s.place, stack, InHand(t));
    Grab(s.pcs, s.place, t, AllocGot(stack), stack);
    TakeFromSlot(s, slot, InHand(t));
  }

  lemma XchgKeepsInv(s: State, t: Tid)
    requires Inv(s) && Enabled(s, Xchg(t))
    ensures Inv(DoXchg(s, t))
  {
    var slot := Slot(s.cpuOf[t], s.pcs[t].i);
    if slot in s.cache {
      XchgTakes(s, t);
    } else {
      Outside(s, t, AllocScan(slot.i + 1));
      SameHand(s.pcs, s.place, t, AllocScan(slot.i + 1));
    }
  }

  lemma TakeFromSlot(s: State, k: Slot, p: Place)
    requires SlotsOk(s.cache, s.online, s.unread, s.stale, s.place) && k in s.cache && k.cpu in s.online && !p.InSlot?
    ensures SlotsOk(s.cache - {k}, s.online, s.unread, s.stale, s.place[s.cache[k] := p])
  {
  }

  lemma PutIntoSlot(s: State, k: Slot, x: Stack)
    requires SlotsOk(s.cache, s.online, s.unread, s.stale, s.place)
    requires k !in s.cache && k.cpu in s.online && k.i < SLOTS && (x in s.place ==> !s.place[x].InSlot?)
    ensures SlotsOk(s.cache[k := x], s.online, s.unread, s.stale, s.place[x := InSlot(k)])
  {
  }

  lemma CmpxchgPuts(s: State, t: Tid)
    requires Inv(s) && Enabled(s, Cmpxchg(t)) && Slot(s.cpuOf[t], s.pcs[t].i) !in s.cache
    ensures Inv(DoCmpxchg(s, t))
  {
    var slot, stack := Slot(s.cpuOf[t], s.pcs[t].i), s.pcs[t].stack;
    assert s.place[stack] == InHand(t);
    Outside(s, t, Idle);
    NotOfTask(s.tasks, s.place, stack, InSlot(slot));
    Drop(s.pcs, s.place, t, Idle, InSlot(slot));
    PutIntoSlot(s, slot, stack);
  }

  lemma CmpxchgKeepsInv(s: State, t: Tid)
    requires Inv(s) && Enabled(s, Cmpxchg(t))
    ensures Inv(DoCmpxchg(s, t))
  {
    var slot, stack := Slot(s.cpuOf[t], s.pcs[t].i), s.pcs[t].stack;
    if slot in s.cache {
      Outside(s, t, FreeScan(stack, slot.i + 1));
      SameHand(s.pcs, s.place, t, FreeScan(stack, slot.i + 1));
    } else {
      CmpxchgPuts(s, t);
    }
  }

  /** A CPU that goes down keeps all its slots live until they are looked at. */
  lemma DownSlots(s: State, c: Cpu)
    requires SlotsOk(s.cache, s.online, s.unread, s.stale, s.place) && c in s.online
    ensures SlotsOk(s.cache, s.online - {c}, s.unread[c := 0], s.stale, s.place)
  {
    assert forall k: Slot :: Live(s.online, s.unread, k) ==> Live(s.online - {c}, s.unread[c := 0], k);
    assert forall k: Slot :: Live(s.online - {c}, s.unread[c := 0], k) ==> Live(s.online, s.unread, k);
  }

  lemma DownCallbacks(s: State, t: Tid, c: Cpu)
    requires ThreadsOk(s.pcs, s.cpuOf, s.online) && CallbacksOk(s.pcs, s.online, s.callback, s.unread, s.stale)
    requires Enabled(s, CpuDown(t, c))
    ensures ThreadsOk(s.pcs[t := Hot(Slot(c, 0))], s.cpuOf, s.online - {c})
    ensures CallbacksOk(s.pcs[t := Hot(Slot(c, 0))], s.online - {c}, s.callback[c := t], s.unread[c := 0], s.stale)
  {
    assert c !in s.callback;
  }

  lemma CpuDownKeepsInv(s: State, t: Tid, c: Cpu)
    requires Inv(s) && Enabled(s, CpuDown(t, c))
    ensures Inv(Apply(s, CpuDown(t, c)))
  {
    SameHand(s.pcs, s.place, t, Hot(Slot(c, 0)));
    DownSlots(s, c);
    DownCallbacks(s, t, c);
  }

  lemma CpuUpKeepsInv(s: State, t: Tid, c: Cpu)
    requires Inv(s) && Enabled(s, CpuUp(t, c))
    ensures Inv(Apply(s, CpuUp(t, c)))
  {
  }

  /** Looking at one slot of a dead CPU takes that slot out of those that count, and no other. */
  lemma LookedAt(online: set<Cpu>, unread: map<Cpu, nat>, k: Slot, j: Slot)
    requires k.cpu !in online && k.cpu in unread && unread[k.cpu] == k.i
    ensures Live(online, unread[k.cpu := k.i + 1], j) <==> Live(online, unread, j) && j != k
  {
  }

  /** A slot of a dead CPU that has been looked at no longer counts; what was in it has been freed. */
  lemma ReadDeadSlot(s: State, k: Slot)
    requires SlotsOk(s.cache, s.online, s.unread, s.stale, s.place)
    requires k.cpu !in s.online && k.cpu in s.unread && s.unread[k.cpu] == k.i
    ensures k in s.cache ==>
              SlotsOk(s.cache, s.online, s.unread[k.cpu := k.i + 1], s.stale + {k}, s.place[s.cache[k] := Released])
    ensures k !in s.cache ==> SlotsOk(s.cache, s.online, s.unread[k.cpu := k.i + 1], s.stale, s.place)
  {
    forall j: Slot ensures Live(s.online, s.unread[k.cpu := k.i + 1], j) <==> Live(s.online, s.unread, j) && j != k {
      LookedAt(s.online, s.unread, k, j);
    }
  }

  lemma ClearDeadSlot(s: State, k: Slot)
    requires SlotsOk(s.cache, s.online, s.unread, s.stale, s.place) && !Live(s.online, s.unread, k)
    ensures SlotsOk(s.cache - {k}, s.online, s.unread, s.stale - {k}, s.place)
  {
  }

  /** The callback of one dead CPU moves from a slot to the next state; the others stay where they are. */
  lemma CallbackMoves(s: State, t: Tid, pc: Pc, stale: set<Slot>)
    requires ThreadsOk(s.pcs, s.cpuOf, s.online) && CallbacksOk(s.pcs, s.online, s.callback, s.unread, s.stale)
    requires t in s.pcs && InCallback(s.pcs[t]) && InCallback(pc)
    requires pc.slot.cpu == s.pcs[t].slot.cpu && pc.slot.i < SLOTS
    requires stale == s.stale - {s.pcs[t].slot} + (if pc.HotClear? then {pc.slot} else {})
    ensures ThreadsOk(s.pcs[t := pc], s.cpuOf, s.online)
    ensures CallbacksOk(s.pcs[t := pc], s.online, s.callback, s.unread[pc.slot.cpu := Unread(pc)], stale)
  {
    var c := pc.slot.cpu;
    assert forall k | k in s.stale && k.cpu == c :: k == s.pcs[t].slot;
    assert forall d | d in s.callback && d != c :: s.callback[d] != t;
  }

  lemma CallbackEnds(s: State, t: Tid)
    requires ThreadsOk(s.pcs, s.cpuOf, s.online) && CallbacksOk(s.pcs, s.online, s.callback, s.unread, s.stale)
    requires t in s.pcs && InCallback(s.pcs[t]) && s.pcs[t].slot.i == SLOTS - 1
    ensures var k := s.pcs[t].slot;
            && ThreadsOk(s.pcs[t := Idle], s.cpuOf, s.online)
            && CallbacksOk(s.pcs[t := Idle], s.online, s.callback - {k.cpu}, s.unread[k.cpu := SLOTS], s.stale - {k})
  {
    var c := s.pcs[t].slot.cpu;
    assert forall k | k in s.stale && k.cpu == c :: k == s.pcs[t].slot;
    assert forall d | d in s.callback && d != c :: s.callback[d] != t;
  }

  /** What the callback leaves besides the slots when it goes from slot `k` to state `e`. */
  ghost predicate MovedOn(s: State, k: Slot, e: State) {
    && HandsOk(e.pcs, s.place) && CleanOk(e.pcs, s.clean) && ThreadsOk(e.pcs, s.cpuOf, s.online)
    && CallbacksOk(e.pcs, s.online, e.callback, s.unread[k.cpu := k.i + 1], s.stale - {k})
  }

  lemma GoesOn(s: State, t: Tid, k: Slot)
    requires Inv(s) && t in s.pcs && InCallback(s.pcs[t]) && k == s.pcs[t].slot && k.i + 1 < SLOTS
    ensures MovedOn(s, k, Go(s, t, Hot(Slot(k.cpu, k.i + 1))))
  {
    SameHand(s.pcs, s.place, t, Hot(Slot(k.cpu, k.i + 1)));
    CallbackMoves(s, t, Hot(Slot(k.cpu, k.i + 1)), s.stale - {k});
  }

  lemma Ends(s: State, t: Tid, k: Slot)
    requires Inv(s) && t in s.pcs && InCallback(s.pcs[t]) && k == s.pcs[t].slot && k.i + 1 == SLOTS
    ensures MovedOn(s, k, Go(s.(callback := s.callback - {k.cpu}), t, Idle))
  {
    SameHand(s.pcs, s.place, t, Idle);
    CallbackEnds(s, t);
  }

  lemma InRange(s: State, t: Tid)
    requires CallbacksOk(s.pcs, s.online, s.callback, s.unread, s.stale) && t in s.pcs && InCallback(s.pcs[t])
    ensures s.pcs[t].slot.i < SLOTS
  {
    assert s.pcs[t].slot.cpu in s.callback;
  }

  lemma NextSlotKeeps(s: State, t: Tid)
    requires Inv(s) && t in s.pcs && InCallback(s.pcs[t])
    ensures MovedOn(s, s.pcs[t].slot, NextSlot(s, t, s.pcs[t].slot))
  {
    var k := s.pcs[t].slot;
    InRange(s, t);
    if k.i + 1 < SLOTS {
      GoesOn(s, t, k);
      assert NextSlot(s, t, k) == Go(s, t, Hot(Slot(k.cpu, k.i + 1)));
    } else {
      Ends(s, t, k);
      assert NextSlot(s, t, k) == Go(s.(callback := s.callback - {k.cpu}), t, Idle);
    }
  }

  lemma HotFreeSlots(s: State, t: Tid)
    requires SlotsOk(s.cache, s.online, s.unread, s.stale, s.place) && Enabled(s, HotFree(t))
    requires var k := s.pcs[t].slot; k.cpu !in s.online && k.cpu in s.unread && s.unread[k.cpu] == k.i
    ensures var e := DoHotFree(s, t); SlotsOk(e.cache, e.online, e.unread, e.stale, e.place)
  {
    var k := s.pcs[t].slot;
    ReadDeadSlot(s, k);
    var e := DoHotFree(s, t);
    if k in s.cache {
      assert e.place == s.place[s.cache[k] := Released];
    } else if k.i + 1 < SLOTS {
      assert e.cache == s.cache;
    } else {
      assert e.cache == s.cache;
    }
  }

  lemma HotFreeTasks(s: State, t: Tid)
    requires Inv(s) && Enabled(s, HotFree(t))
    ensures var e := DoHotFree(s, t); TasksOk(e.tasks, e.place) && e.dirty == 0
  {
    var k := s.pcs[t].slot;
    if k in s.cache {
      assert Live(s.online, s.unread, k) && s.place[s.cache[k]] == InSlot(k);
      NotOfTask(s.tasks, s.place, s.cache[k], Released);
    }
  }

  lemma HotFreeFull(s: State, t: Tid)
    requires Inv(s) && Enabled(s, HotFree(t)) && s.pcs[t].slot in s.cache
    ensures var e := DoHotFree(s, t);
            && ThreadsOk(e.pcs, e.cpuOf, e.online) && CallbacksOk(e.pcs, e.online, e.callback, e.unread, e.stale)
            && HandsOk(e.pcs, e.place) && CleanOk(e.pcs, e.clean)
  {
    var k := s.pcs[t].slot;
    var x := s.cache[k];
    assert Live(s.online, s.unread, k) && s.place[x] == InSlot(k);
    SameHand(s.pcs, s.place, t, HotClear(k));
    NotInHand(s.pcs[t := HotClear(k)], s.place, x, Released);
    assert s.stale - {k} + {k} == s.stale + {k};
    CallbackMoves(s, t, HotClear(k), s.stale + {k});
  }

  lemma HotFreeNull(s: State, t: Tid)
    requires Inv(s) && Enabled(s, HotFree(t)) && s.pcs[t].slot !in s.cache
    ensures var e := DoHotFree(s, t);
            && ThreadsOk(e.pcs, e.cpuOf, e.online) && CallbacksOk(e.pcs, e.online, e.callback, e.unread, e.stale)
            && HandsOk(e.pcs, e.place) && CleanOk(e.pcs, e.clean)
  {
    NextSlotKeeps(s, t);
    assert s.stale - {s.pcs[t].slot} == s.stale by {
      assert s.pcs[t].slot !in s.stale;
    }
  }

  lemma HotFreeKeepsInv(s: State, t: Tid)
    requires Inv(s) && Enabled(s, HotFree(t))
    ensures Inv(DoHotFree(s, t))
  {
    HotFreeSlots(s, t);
    HotFreeTasks(s, t);
    if s.pcs[t].slot in s.cache {
      HotFreeFull(s, t);
    } else {
      HotFreeNull(s, t);
    }
  }

  lemma HotStoreKeepsInv(s: State, t: Tid)
    requires Inv(s) && Enabled(s, HotStore(t))
    ensures Inv(Apply(s, HotStore(t)))
  {
    var k := s.pcs[t].slot;
    assert s.unread[k.cpu] == k.i + 1;
    assert s.unread[k.cpu := k.i + 1] == s.unread;
    ClearDeadSlot(s, k);
    NextSlotKeeps(s, t);
  }

  lemma KeepsInv(s: State, step: Step)
    requires Inv(s) && Enabled(s, step)
    ensures Inv(Apply(s, step))
  {
    match step
    case Xchg(t) => XchgKeepsInv(s, t);
    case Vmalloc(t, got) => VmallocKeepsInv(s, t, got);
    case HandOut(t, x) => HandOutKeepsInv(s, t, x);
    case StartFree(t, x) => StartFreeKeepsInv(s, t, x);
    case Cmpxchg(t) => CmpxchgKeepsInv(s, t);
    case Vfree(t) => VfreeKeepsInv(s, t);
    case CpuDown(t, c) => CpuDownKeepsInv(s, t, c);
    case CpuUp(t, c) => CpuUpKeepsInv(s, t, c);
    case HotFree(t) => HotFreeKeepsInv(s, t);
    case HotStore(t) => HotStoreKeepsInv(s, t);
    case _ => LocalKeepsInv(s, step);
  }

  // ------------------------------------------------------------------------------------------
  // Whole runs.

  ghost predicate Runs(s: State, run: seq<Step>)
    decreases |run|
  {
    run == [] || (Enabled(s, run[0]) && Runs(Apply(s, run[0]), run[1..]))
  }

  ghost function Final(s: State, run: seq<Step>): State
    requires Runs(s, run)
    decreases |run|
  {
    if run == [] then s else Final(Apply(s, run[0]), run[1..])
  }

  /** A stack has been given to vfree once if it is released, and not at all otherwise. */
  ghost predicate FreedOnce(freed: multiset<Stack>, place: Places) {
    forall x: Stack :: freed[x] == if x in place && place[x].Released? then 1 else 0
  }

  lemma NotFreed(freed: multiset<Stack>, place: Places, x: Stack, p: Place)
    requires FreedOnce(freed, place) && (x in place ==> !place[x].Released?) && !p.Released?
    ensures FreedOnce(freed, place[x := p])
  {
  }

  lemma NowFreed(freed: multiset<Stack>, place: Places, x: Stack)
    requires FreedOnce(freed, place) && (x in place ==> !place[x].Released?)
    ensures FreedOnce(freed + multiset{x}, place[x := Released])
  {
  }

  /** vfree is only ever given a stack that is in a hand, or in a slot that nobody has looked at since its CPU went down. */
  lemma FreesOnce(s: State, step: Step)
    requires Inv(s) && Enabled(s, step) && FreedOnce(s.freed, s.place) && (step.Vfree? || step.HotFree?)
    ensures FreedOnce(Apply(s, step).freed, Apply(s, step).place)
  {
    var pc := s.pcs[step.t];
    if step.Vfree? {
      assert s.place[pc.stack] == InHand(step.t);
      NowFreed(s.freed, s.place, pc.stack);
    } else if pc.slot in s.cache {
      assert Live(s.online, s.unread, pc.slot) && s.place[s.cache[pc.slot]] == InSlot(pc.slot);
      NowFreed(s.freed, s.place, s.cache[pc.slot]);
    }
  }

  lemma KeepsFreedOnce(s: State, step: Step)
    requires Inv(s) && Enabled(s, step) && FreedOnce(s.freed, s.place)
    ensures FreedOnce(Apply(s, step).freed, Apply(s, step).place)
  {
    var t := step.t;
    var pc := s.pcs[t];
    match step
    case Xchg(_) =>
      var slot := Slot(s.cpuOf[t], pc.i);
      if slot in s.cache {
        assert Live(s.online, s.unread, slot) && s.place[s.cache[slot]] == InSlot(slot);
        NotFreed(s.freed, s.place, s.cache[slot], InHand(t));
      }
    case Vmalloc(_, got) =>
      if got.Some? {
        NotFreed(s.freed, s.place, got.value, InHand(t));
      }
    case HandOut(_, x) => NotFreed(s.freed, s.place, pc.stack, OfTask(x));
    case StartFree(_, x) => NotFreed(s.freed, s.place, s.tasks[x], InHand(t));
    case Cmpxchg(_) => NotFreed(s.freed, s.place, pc.stack, InSlot(Slot(s.cpuOf[t], pc.i)));
    case Vfree(_) => FreesOnce(s, step);
    case HotFree(_) => FreesOnce(s, step);
    case _ =>
  }

  lemma {:induction false} RunKeepsInv(s: State, run: seq<Step>)
    requires Inv(s) && FreedOnce(s.freed, s.place) && Runs(s, run)
    ensures Inv(Final(s, run)) && FreedOnce(Final(s, run).freed, Final(s, run).place)
    decreases |run|
  {
    if run != [] {
      KeepsInv(s, run[0]);
      KeepsFreedOnce(s, run[0]);
      RunKeepsInv(Apply(s, run[0]), run[1..]);
    }
  }

  /** Where a stack can be found. A slot counts while its CPU runs or nobody has looked at it since the CPU went down. */
  predicate Found(e: State, x: Stack, p: Place) {
    match p
    case InSlot(k) => k in e.cache && e.cache[k] == x && Live(e.online, e.unread, k)
    case InHand(t) => t in e.pcs && Holds(e.pcs[t]) == Some(x)
    case OfTask(n) => n in e.tasks && e.tasks[n] == x
    case Released => e.freed[x] > 0
  }

  /**
   * After every run each stack ever allocated is in exactly one place: in one slot, one hand, of one task,
   * or released; nothing else is in any of these; a released stack has been freed exactly once; and no
   * stack was ever handed to a task uncleared.
   */
  lemma EveryStackInOnePlace(s: State, run: seq<Step>)
    requires Initial(s) && Runs(s, run)
    ensures var e := Final(s, run);
            && e.dirty == 0
            && (forall x: Stack, p: Place :: Found(e, x, p) <==> x in e.place && e.place[x] == p)
            && (forall x: Stack :: e.freed[x] <= 1)
  {
    InitialInv(s);
    RunKeepsInv(s, run);
  }
}
