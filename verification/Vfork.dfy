/**
 * The vfork handshake (kernel/fork.c): a completion that lives in the frame of the parent's
 * kernel_clone, reached by the child through task_struct.vfork_done. Any number of clone calls run at
 * once; completions and spinlocks are taken apart into single steps, as complete() and
 * wait_for_completion_killable() make them.
 */
module Vfork {

  datatype Holder = Free | ByChild | ByParent

  /** Where the child is. `User`: it has not left the shared mm yet. */
  datatype ChildAt =
    | Unborn
    | User
    | Releasing                     // in mm_release, done with the user memory
    | WantTaskLock                  // has seen vfork_done set, without a lock
    | Looking                       // holds its task lock
    | Completing                    // has taken the pointer and cleared vfork_done
    | InComplete                    // holds the lock inside the completion
    | Completed                     // has counted `done` up
    | Unlocking
    | After                         // out of mm_release; it may exec or exit again
    | Dead

  /** Where the parent is in kernel_clone. */
  datatype ParentAt =
    | Created
    | Waiting
    | Testing                       // holds the lock inside the completion
    | Leaving(interrupted: bool)    // is about to drop that lock and stop waiting
    | WantChildLock
    | Clearing                      // holds the child's task lock
    | ChildUnlock
    | Putting
    | Returned

  /**
   * One clone call. `vforkDone` says the child's pointer is set, `done` is the completion's count,
   * `ownRef` and `parentRef` are the references on the child's task_struct. `released` says the child
   * has let go of the mm, `killed` that the wait was interrupted, and `faults` counts uses of the
   * completion after the frame was gone or of the task_struct after its last reference was.
   */
  datatype Call = Call(
    vfork: bool, child: ChildAt, parent: ParentAt,
    vforkDone: bool, taskLock: Holder, waitLock: Holder, done: nat,
    ownRef: bool, parentRef: bool,
    released: bool, killed: bool, faults: nat)

  type State = seq<Call>

  datatype Action =
    | Start | Wake                                                               // kernel_clone
    | WaitLock | Test(fatalSignal: bool) | Leave                                 // wait_for_completion_killable
    | LockChild | Clear | UnlockChild | Put                                      // wait_for_vfork_done
    | Release | Check | LockSelf | Look | LockDone | Count | UnlockDone | UnlockSelf  // mm_release, complete_vfork_done
    | Exit

  /** The parent's actions; the others are the child's. */
  predicate ParentDoes(a: Action) {
    || a.Start? || a.Wake? || a.WaitLock? || a.Test? || a.Leave?
    || a.LockChild? || a.Clear? || a.UnlockChild? || a.Put?
  }

  /** `Begin` is a new call; `Move` is a step of the parent or the child of call `i`. */
  datatype Step = Begin(vfork: bool) | Move(i: nat, action: Action)

  /** copy_process has returned a child with no vfork_done, that is not running yet. */
  function NewCall(vfork: bool): Call {
    Call(vfork, Unborn, Created, false, Free, Free, 0, true, false, false, false, 0)
  }

  predicate CallEnabled(c: Call, a: Action) {
    match a
    case Start => c.parent.Created? && c.child.Unborn? && c.vfork && !c.parentRef
    case Wake => c.parent.Created? && c.child.Unborn? && (c.vfork ==> c.parentRef)
    case WaitLock => c.parent.Waiting? && c.waitLock.Free?
    case Test(_) => c.parent.Testing?
    case Leave => c.parent.Leaving?
    case LockChild => c.parent.WantChildLock? && c.taskLock.Free?
    case Clear => c.parent.Clearing?
    case UnlockChild => c.parent.ChildUnlock?
    case Put => c.parent.Putting?
    case Release => c.child.User? || c.child.After?
    case Check => c.child.Releasing?
    case LockSelf => c.child.WantTaskLock? && c.taskLock.Free?
    case Look => c.child.Looking?
    case LockDone => c.child.Completing? && c.waitLock.Free?
    case Count => c.child.InComplete?
    case UnlockDone => c.child.Completed?
    case UnlockSelf => c.child.Unlocking?
    case Exit => c.child.After?
  }

  /** The completion is used: a fault unless kernel_clone's frame is still there. */
  function Touch(c: Call): Call {
    if c.parent.Returned? then c.(faults := c.faults + 1) else c
  }

  /** The child's task_struct is used: a fault unless a reference is held. */
  function Use(c: Call): Call {
    if c.ownRef || c.parentRef then c else c.(faults := c.faults + 1)
  }

  function CallApply(c: Call, a: Action): Call
    requires CallEnabled(c, a)
  {
    match a
    case Start => Use(c).(vforkDone := true, done := 0, parentRef := true)
    case Wake => Use(c).(child := User, parent := if c.vfork then Waiting else Returned)
    case WaitLock => Touch(c).(waitLock := ByParent, parent := Testing)
    case Test(fatalSignal) =>
      if c.done > 0 then Touch(c).(done := c.done - 1, parent := Leaving(false))
      else if fatalSignal then Touch(c).(parent := Leaving(true))
      else Touch(c).(waitLock := Free, parent := Waiting)
    case Leave =>
      Touch(c).(waitLock := Free, killed := c.parent.interrupted,
                parent := if c.parent.interrupted then WantChildLock else Putting)
    case LockChild => Use(c).(taskLock := ByParent, parent := Clearing)
    case Clear => Use(c).(vforkDone := false, parent := ChildUnlock)
    case UnlockChild => Use(c).(taskLock := Free, parent := Putting)
    case Put => Use(c).(parentRef := false, parent := Returned)
    case Release => Use(c).(released := true, child := Releasing)
    case Check => Use(c).(child := if c.vforkDone then WantTaskLock else After)
    case LockSelf => Use(c).(taskLock := ByChild, child := Looking)
    case Look =>
      if c.vforkDone then Use(c).(vforkDone := false, child := Completing) else Use(c).(child := Unlocking)
    case LockDone => Touch(c).(waitLock := ByChild, child := InComplete)
    case Count => Touch(c).(done := c.done + 1, child := Completed)
    case UnlockDone => Touch(c).(waitLock := Free, child := Unlocking)
    case UnlockSelf => Use(c).(taskLock := Free, child := After)
    case Exit => Use(c).(ownRef := false, child := Dead)
  }

  predicate Enabled(s: State, step: Step) {
    step.Begin? || (step.i < |s| && CallEnabled(s[step.i], step.action))
  }

  function Apply(s: State, step: Step): State
    requires Enabled(s, step)
  {
    match step
    case Begin(vfork) => s + [NewCall(vfork)]
    case Move(i, action) => s[i := CallApply(s[i], action)]
  }

  /** The child still has the completion's address in hand. */
  predicate HasPointer(at: ChildAt) {
    at.Completing? || at.InComplete? || at.Completed?
  }

  /** The parent has not yet made sure that the child is through with the completion. */
  predicate Exposed(at: ParentAt) {
    at.Created? || at.Waiting? || at.Testing? || at == Leaving(true) || at.WantChildLock? || at.Clearing?
  }

  ghost predicate LocksAgree(c: Call) {
    && (c.taskLock.ByChild? <==> HasPointer(c.child) || c.child.Looking? || c.child.Unlocking?)
    && (c.taskLock.ByParent? <==> c.parent.Clearing? || c.parent.ChildUnlock?)
    && (c.waitLock.ByChild? <==> c.child.InComplete? || c.child.Completed?)
    && (c.waitLock.ByParent? <==> c.parent.Testing? || c.parent.Leaving?)
  }

  /** While the child can reach the completion, by vfork_done or with its address in hand, the parent is still exposed. */
  ghost predicate PointerAgrees(c: Call) {
    && (c.vforkDone ==> Exposed(c.parent) && c.parentRef && c.done == 0 && !HasPointer(c.child)
                        && !c.child.Unlocking? && !c.child.After? && !c.child.Dead?)
    && (HasPointer(c.child) ==> Exposed(c.parent) && !c.parent.Created? && !c.parent.Clearing?)
  }

  /** The count is raised once, and a parent that waits has not missed it. */
  ghost predicate CountAgrees(c: Call) {
    && (c.child.Completing? || c.child.InComplete? ==> c.done == 0)
    && (c.child.Completed? ==> c.done == 1)
    && (c.done > 0 ==> c.done == 1 && !c.parent.Created? && c.released)
    && (c.vfork && (c.parent.Waiting? || c.parent.Testing?) ==>
          c.vforkDone || c.done == 1 || c.child.Completing? || c.child.InComplete?)
  }

  ghost predicate LivesAgree(c: Call) {
    && (c.child.Unborn? <==> c.parent.Created?)
    && (c.ownRef <==> !c.child.Dead?)
    && (c.parentRef ==> c.vfork && !c.parent.Returned?)
    && (c.parentRef <== c.vfork && !c.parent.Created? && !c.parent.Returned?)
    && (c.child.Unborn? && c.parentRef ==> c.vforkDone)
    && (c.released <==> !c.child.Unborn? && !c.child.User?)
    && (!c.vfork ==> c.parent.Created? || c.parent.Returned?)
    && (c.killed ==> !c.parent.Created? && !c.parent.Waiting? && !c.parent.Testing? && !c.parent.Leaving?)
    && (c.killed <== c.parent.WantChildLock? || c.parent.Clearing? || c.parent.ChildUnlock?)
    && (!c.killed && c.vfork && (c.parent == Leaving(false) || c.parent.Putting? || c.parent.Returned?) ==> c.released)
    && c.faults == 0
  }

  ghost predicate CallInv(c: Call) {
    LocksAgree(c) && PointerAgrees(c) && CountAgrees(c) && LivesAgree(c)
  }

  ghost predicate Inv(s: State) {
    forall i | 0 <= i < |s| :: CallInv(s[i])
  }

  lemma ParentKeepsLocks(c: Call, a: Action)
    requires CallInv(c) && CallEnabled(c, a) && ParentDoes(a)
    ensures LocksAgree(CallApply(c, a))
  {
  }

  lemma ChildKeepsLocks(c: Call, a: Action)
    requires CallInv(c) && CallEnabled(c, a) && !ParentDoes(a)
    ensures LocksAgree(CallApply(c, a))
  {
  }

  lemma ParentKeepsPointer(c: Call, a: Action)
    requires CallInv(c) && CallEnabled(c, a) && ParentDoes(a)
    ensures PointerAgrees(CallApply(c, a))
  {
  }

  lemma ChildKeepsPointer(c: Call, a: Action)
    requires CallInv(c) && CallEnabled(c, a) && !ParentDoes(a)
    ensures PointerAgrees(CallApply(c, a))
  {
  }

  lemma StepKeepsCount(c: Call, a: Action)
    requires CallInv(c) && CallEnabled(c, a)
    ensures CountAgrees(CallApply(c, a))
  {
  }

  lemma StepKeepsLives(c: Call, a: Action)
    requires CallInv(c) && CallEnabled(c, a)
    ensures LivesAgree(CallApply(c, a))
  {
  }

  lemma CallKeepsInv(c: Call, a: Action)
    requires CallInv(c) && CallEnabled(c, a)
    ensures CallInv(CallApply(c, a))
  {
    if ParentDoes(a) {
      ParentKeepsLocks(c, a);
      ParentKeepsPointer(c, a);
    } else {
      ChildKeepsLocks(c, a);
      ChildKeepsPointer(c, a);
    }
    StepKeepsCount(c, a);
    StepKeepsLives(c, a);
  }

  lemma KeepsInv(s: State, step: Step)
    requires Inv(s) && Enabled(s, step)
    ensures Inv(Apply(s, step))
  {
    if step.Move? {
      CallKeepsInv(s[step.i], step.action);
    }
  }

  predicate Runs(s: State, run: seq<Step>)
    decreases |run|
  {
    run == [] || (Enabled(s, run[0]) && Runs(Apply(s, run[0]), run[1..]))
  }

  function Final(s: State, run: seq<Step>): State
    requires Runs(s, run)
    decreases |run|
  {
    if run == [] then s else Final(Apply(s, run[0]), run[1..])
  }

  lemma {:induction false} RunKeepsInv(s: State, run: seq<Step>)
    requires Inv(s) && Runs(s, run)
    ensures Inv(Final(s, run))
    decreases |run|
  {
    if run != [] {
      KeepsInv(s, run[0]);
      RunKeepsInv(Apply(s, run[0]), run[1..]);
    }
  }

  /** What is promised of a call. */
  ghost predicate Safe(c: Call) {
    // the completion is never used after kernel_clone has returned, nor the child's task_struct after its last reference
    && c.faults == 0
    // a vfork parent that was not killed returns only after the child released the mm
    && (c.vfork && c.parent.Returned? && !c.killed ==> c.released)
    // once kernel_clone has returned, the child has no way left to reach the completion
    && (c.parent.Returned? ==> !c.vforkDone && !HasPointer(c.child))
    // the wake-up is not lost: a child that is through with mm_release has completed a parent that still waits
    && (c.vfork && (c.parent.Waiting? || c.parent.Testing?) && (c.child.After? || c.child.Dead?) ==> c.done == 1)
  }

  /** Over every run of any number of clone calls, killed or not. */
  lemma EveryRunIsSafe(run: seq<Step>)
    requires Runs([], run)
    ensures forall i | 0 <= i < |Final([], run)| :: Safe(Final([], run)[i])
  {
    RunKeepsInv([], run);
  }

  // ------------------------------------------------------------------------------------------
  // The parent gets out.

  /** The next step of the parent, until it has returned. */
  function ParentNext(c: Call): Action {
    match c.parent
    case Created => if c.vfork && !c.parentRef then Start else Wake
    case Waiting => WaitLock
    case Testing => Test(false)
    case Leaving(_) => Leave
    case WantChildLock => LockChild
    case Clearing => Clear
    case ChildUnlock => UnlockChild
    case Putting => Put
    case Returned => Put
  }

  /** The most steps the parent still takes, once the child is through. */
  function ParentSteps(c: Call): nat {
    match c.parent
    case Created => 9
    case Waiting => 8
    case Testing => 7
    case Leaving(_) => 6
    case WantChildLock => 5
    case Clearing => 4
    case ChildUnlock => 3
    case Putting => 2
    case Returned => 0
  }

  /** The child is through with vfork_done for good, though it may exec or exit again. */
  predicate Through(c: Call) {
    c.child.After? || c.child.Dead? || (c.child.Releasing? && !c.vforkDone)
  }

  /** The child stays through, and every step of the parent brings it nearer its return. */
  lemma StepGetsOut(c: Call, a: Action)
    requires CallInv(c) && Through(c) && CallEnabled(c, a)
    ensures Through(CallApply(c, a))
    ensures ParentSteps(CallApply(c, a)) + (if ParentDoes(a) then 1 else 0) <= ParentSteps(c)
  {
  }

  /** Nothing of the child blocks the parent. */
  lemma ParentFree(c: Call)
    requires CallInv(c) && Through(c) && !c.parent.Returned?
    ensures CallEnabled(c, ParentNext(c)) && ParentDoes(ParentNext(c))
  {
  }

  /** The steps of the parent of call `i` in a run. */
  function ParentMoves(i: nat, run: seq<Step>): nat {
    if run == [] then 0 else
    (if run[0].Move? && run[0].i == i && ParentDoes(run[0].action) then 1 else 0) + ParentMoves(i, run[1..])
  }

  /**
   * Once the child is through mm_release, in every run and whatever all others do, the parent takes at
   * most the eight steps from its wait to its return, and until it has returned it can always take one.
   */
  lemma {:induction false} ParentGetsOut(s: State, i: nat, run: seq<Step>)
    requires Inv(s) && Runs(s, run) && i < |s| && Through(s[i])
    ensures var e := Final(s, run);
            && i < |e| && ParentMoves(i, run) + ParentSteps(e[i]) <= ParentSteps(s[i])
            && (e[i].parent.Returned? || (CallEnabled(e[i], ParentNext(e[i])) && ParentDoes(ParentNext(e[i]))))
    decreases |run|
  {
    if run == [] {
      if !s[i].parent.Returned? {
        ParentFree(s[i]);
      }
    } else {
      var step := run[0];
      KeepsInv(s, step);
      if step.Move? && step.i == i {
        StepGetsOut(s[i], step.action);
      }
      ParentGetsOut(Apply(s, step), i, run[1..]);
    }
  }
}
