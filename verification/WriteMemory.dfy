/**
 * sk_wmem_alloc (net/core/sock.c): one counter that holds both the bytes of the write buffers in
 * flight and, as one more, the life of the socket. Saturation of refcount_t is not modelled.
 */
module WriteMemory {

  /** A buffer: attached, between the two subtractions of sock_wfree, or released. */
  datatype Phase = Attached | Half | Gone

  datatype Buffer = Buffer(truesize: nat, phase: Phase) {
    /** The bytes still counted in sk_wmem_alloc. */
    function Held(): nat {
      match phase case Attached => truesize case Half => 1 case Gone => 0
    }
  }

  /**
   * `freed` says sk_free was called, `frees` counts the calls of __sk_free and `warnings` the times
   * the first subtraction of sock_wfree reached zero.
   */
  datatype State = State(wmem: int, freed: bool, buffers: seq<Buffer>, frees: nat, warnings: nat)

  datatype Step =
    | Attach(truesize: nat)      // skb_set_owner_w
    | FirstSub(i: nat)           // sock_wfree up to sk_write_space
    | SecondSub(i: nat)          // the rest of sock_wfree
    | WholeSub(i: nat)           // sock_wfree with SOCK_USE_WRITE_QUEUE, and __sock_wfree
    | SkFree

  /** sk_alloc: the counter starts at one. */
  function Fresh(): State {
    State(1, false, [], 0, 0)
  }

  /** refcount_sub_and_test followed by __sk_free when it says zero. */
  function SubAndFree(s: State, n: int): State {
    s.(wmem := s.wmem - n, frees := if s.wmem == n then s.frees + 1 else s.frees)
  }

  predicate AnyHeld(bs: seq<Buffer>) {
    exists i :: 0 <= i < |bs| && !bs[i].phase.Gone?
  }

  /**
   * A caller that attaches a buffer has the socket: it is not given up yet, or a buffer in flight
   * still holds it. A buffer has a positive truesize.
   */
  predicate Enabled(s: State, step: Step) {
    match step
    case Attach(truesize) => 0 < truesize && (!s.freed || AnyHeld(s.buffers))
    case FirstSub(i) => i < |s.buffers| && s.buffers[i].phase.Attached?
    case SecondSub(i) => i < |s.buffers| && s.buffers[i].phase.Half?
    case WholeSub(i) => i < |s.buffers| && s.buffers[i].phase.Attached?
    case SkFree => !s.freed
  }

  function Apply(s: State, step: Step): State
    requires Enabled(s, step)
  {
    match step
    case Attach(truesize) =>
      s.(wmem := s.wmem + truesize, buffers := s.buffers + [Buffer(truesize, Attached)])
    case FirstSub(i) =>
      var n := s.buffers[i].truesize - 1;
      s.(wmem := s.wmem - n, warnings := if s.wmem == n then s.warnings + 1 else s.warnings,
         buffers := s.buffers[i := s.buffers[i].(phase := Half)])
    case SecondSub(i) =>
      SubAndFree(s, 1).(buffers := s.buffers[i := s.buffers[i].(phase := Gone)])
    case WholeSub(i) =>
      SubAndFree(s, s.buffers[i].truesize).(buffers := s.buffers[i := s.buffers[i].(phase := Gone)])
    case SkFree =>
      SubAndFree(s, 1).(freed := true)
  }

  function Sum(bs: seq<Buffer>): nat {
    if bs == [] then 0 else Sum(bs[..|bs| - 1]) + bs[|bs| - 1].Held()
  }

  /** The counter is the socket plus the bytes held, and __sk_free has run exactly when both are gone. */
  ghost predicate Inv(s: State) {
    && (forall i | 0 <= i < |s.buffers| :: 0 < s.buffers[i].truesize)
    && s.wmem == (if s.freed then 0 else 1) + Sum(s.buffers)
    && s.frees == (if s.freed && !AnyHeld(s.buffers) then 1 else 0)
    && s.warnings == 0
  }

  lemma {:induction false} SumUpdate(bs: seq<Buffer>, i: nat, b: Buffer)
    requires i < |bs|
    ensures Sum(bs[i := b]) == Sum(bs) - bs[i].Held() + b.Held()
  {
    var n := |bs| - 1;
    if i < n {
      SumUpdate(bs[..n], i, b);
      assert bs[i := b][..n] == bs[..n][i := b];
    } else {
      assert bs[i := b][..n] == bs[..n];
    }
  }

  /** Bytes are held exactly while some buffer is not released. */
  lemma {:induction false} SumPositive(bs: seq<Buffer>)
    requires forall i | 0 <= i < |bs| :: 0 < bs[i].truesize
    ensures AnyHeld(bs) <==> 0 < Sum(bs)
  {
    if bs != [] {
      var n := |bs| - 1;
      SumPositive(bs[..n]);
      if AnyHeld(bs[..n]) {
        var i :| 0 <= i < n && !bs[..n][i].phase.Gone?;
        assert !bs[i].phase.Gone?;
      }
      if AnyHeld(bs) && bs[n].phase.Gone? {
        var i :| 0 <= i < |bs| && !bs[i].phase.Gone?;
        assert !bs[..n][i].phase.Gone?;
      }
    }
  }

  lemma {:induction false} HeldBounded(bs: seq<Buffer>, i: nat)
    requires i < |bs|
    ensures bs[i].Held() <= Sum(bs)
  {
    if i < |bs| - 1 {
      HeldBounded(bs[..|bs| - 1], i);
    }
  }

  lemma KeepsInv(s: State, step: Step)
    requires Inv(s) && Enabled(s, step)
    ensures Inv(Apply(s, step))
  {
    var e := Apply(s, step);
    SumPositive(s.buffers);
    if step.Attach? {
      assert e.buffers[..|s.buffers|] == s.buffers;
      assert !e.buffers[|s.buffers|].phase.Gone?;
    } else if !step.SkFree? {
      SumUpdate(s.buffers, step.i, e.buffers[step.i]);
      HeldBounded(s.buffers, step.i);
      assert AnyHeld(s.buffers);
    }
    SumPositive(e.buffers);
  }

  ghost predicate Runs(s: State, run: seq<Step>)
    decreases |run|
  {
    run == [] || (Enabled(s, run[0]) && Runs(Apply(s, run[0]), run[1..]))
  }

  ghost function Final(s: State, run: seq<Step>): State
    requires Runs(s, run)
    decreases |run|
  {
    if run == [] then s else Final(Apply(s, run[0]), run[1..])
  }

  lemma {:induction false} RunKeepsInv(s: State, run: seq<Step>)
    requires Inv(s) && Runs(s, run)
    ensures Inv(Final(s, run))
    decreases |run|
  {
    if run != [] {
      KeepsInv(s, run[0]);
      RunKeepsInv(Apply(s, run[0]), run[1..]);
    }
  }

  /**
   * After every interleaving the counter is one for the socket not yet given up plus the bytes still
   * held, the first subtraction of sock_wfree has never reached zero, and __sk_free has run once if
   * sk_free and every buffer are done and not at all otherwise.
   */
  lemma EveryRunFreesOnce(run: seq<Step>)
    requires Runs(Fresh(), run)
    ensures var e := Final(Fresh(), run);
            && e.wmem == (if e.freed then 0 else 1) + Sum(e.buffers)
            && e.warnings == 0
            && e.frees <= 1
            && (e.frees == 1 <==> e.freed && !AnyHeld(e.buffers))
            && (e.wmem == 0 <==> e.frees == 1)
  {
    RunKeepsInv(Fresh(), run);
    SumPositive(Final(Fresh(), run).buffers);
  }
}
