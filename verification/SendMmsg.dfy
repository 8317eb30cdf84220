/**
 * sendmmsg (net/socket.c): sends a batch of messages and remembers the last destination that
 * succeeded, so that a message to the same address is sent without asking the security module again.
 */
module SendMmsg {

  import opened Wrappers

  type Byte = bv8

  const STORAGE: nat := 128        // sizeof(struct sockaddr_storage)
  const UINT_MAX: nat := 0xFFFF_FFFF
  const UIO_MAXIOV: nat := 1024
  const EFAULT := 14
  const EINVAL := 22
  const EMSGSIZE := 90

  /** An address in a sockaddr_storage with its length; the empty one stands for msg_name == NULL. */
  type Address = a: seq<Byte> | |a| <= STORAGE

  /**
   * An entry of the user's array: whether reading the entry itself faults, the bytes at msg_name (None
   * for NULL), msg_namelen, whether reading them faults, the number of iovecs, the answer of the iovec
   * and control-data checks (negative for an error), the bytes to send, and whether storing msg_len
   * back faults.
   */
  datatype UserMsg = UserMsg(
    unreadable: bool, name: Option<seq<Byte>>, namelen: int, fault: bool, iovlen: nat, checks: int, bytes: nat, putFails: bool)

  datatype Header = Header(name: Address) | Bad(err: int)

  /** What move_addr_to_kernel copies: exactly `n` bytes, whatever lies there. */
  function Bytes(at: seq<Byte>, n: nat): (a: Address)
    requires n <= STORAGE
    ensures |a| == n
    ensures n == |at| ==> a == at
  {
    seq(n, i requires 0 <= i < n => if i < |at| then at[i] else 0)
  }

  /** __copy_msghdr_from_user: a name that is not NULL has a length, at most that of the storage. */
  function CopyHeader(u: UserMsg): (h: Header)
    ensures h.Header? ==> (h.name == [] <==> u.name.None? || u.namelen == 0)
    ensures h.Bad? ==> h.err < 0
  {
    if u.unreadable then Bad(-EFAULT) else
    var n := if u.name.None? then 0 else u.namelen;
    if n < 0 then Bad(-EINVAL) else
    var len := if n > STORAGE then STORAGE else n;
    if len > 0 && u.fault then Bad(-EFAULT)
    else if u.iovlen > UIO_MAXIOV then Bad(-EMSGSIZE)
    else if len > 0 then Header(Bytes(u.name.value, len)) else Header([])
  }

  datatype Msg = Msg(name: Address, batch: bool)

  /** What the protocol's sendmsg leaves: the socket, its answer, the address in msg_name, and whether data is left. */
  datatype Sent<S> = Sent(s: S, ret: int, name: Address, left: bool)

  /** A socket with states `S`: the security module's answer for an address, and the protocol's sendmsg. */
  datatype Socket<!S> = Socket(auth: Address -> int, send: (S, Msg) -> Sent<S>)

  /** struct used_address. */
  datatype Used = Used(len: nat, name: seq<Byte>) {
    predicate Valid() {
      |name| == STORAGE && (len <= STORAGE || len == UINT_MAX)
    }

    predicate Matches(a: Address) {
      Valid() && a != [] && len == |a| && name[..len] == a
    }

    function Remember(a: Address): (u: Used)
      requires Valid()
      ensures u.Valid() && forall b: Address :: u.Matches(b) <==> b == a != []
    {
      assert (a + name[|a|..])[..|a|] == a;
      Used(|a|, a + name[|a|..])
    }
  }

  /** One message: the new state, the answer, whether data is left, and the messages the protocol was given. */
  datatype One<S> = One(s: S, err: int, left: bool, given: seq<Msg>, used: Option<Used>)

  /** ____sys_sendmsg; without a `used` to consult it asks every time, as sendmsg does. */
  function SysSendmsg<S>(k: Socket<S>, s: S, used: Option<Used>, u: UserMsg, batch: bool): One<S>
    requires used.Some? ==> used.value.Valid()
  {
    var h := CopyHeader(u);
    if h.Bad? then One(s, h.err, false, [], used)
    else if u.checks < 0 then One(s, u.checks, false, [], used)
    else
      var m := Msg(h.name, batch);
      var r := k.send(s, m);
      if used.Some? && used.value.Matches(h.name) then One(r.s, r.ret, r.left, [m], used)
      else
        var refused := k.auth(h.name) != 0;
        var err := if refused then k.auth(h.name) else r.ret;
        var used' := if used.Some? && err >= 0
                     then Some(used.value.Remember(if refused then h.name else r.name)) else used;
        if refused then One(s, err, u.bytes > 0, [], used') else One(r.s, err, r.left, [m], used')
  }

  /** The whole call: the final state, the return value, the msg_len values stored and the messages given. */
  datatype Outcome<S> = Outcome(s: S, ret: int, lens: seq<int>, given: seq<Msg>)

  /** An error is returned only if nothing was sent. */
  function Return(datagrams: nat, err: int): int {
    if datagrams != 0 then datagrams else err
  }

  /** The batch from message `i` on. */
  function BatchFrom<S>(k: Socket<S>, s: S, used: Option<Used>, msgs: seq<UserMsg>, vlen: nat, i: nat,
                        lens: seq<int>, given: seq<Msg>): Outcome<S>
    requires i <= vlen <= |msgs|
    requires used.Some? ==> used.value.Valid()
    decreases vlen - i
  {
    if i == vlen then Outcome(s, Return(i, 0), lens, given) else
    var one := SysSendmsg(k, s, used, msgs[i], i != vlen - 1);
    if one.err < 0 then Outcome(one.s, Return(i, one.err), lens, given + one.given)
    else if msgs[i].putFails then Outcome(one.s, Return(i, -EFAULT), lens, given + one.given)
    else if one.left then Outcome(one.s, i + 1, lens + [one.err], given + one.given)
    else BatchFrom(k, one.s, one.used, msgs, vlen, i + 1, lens + [one.err], given + one.given)
  }

  function Limit(n: nat): nat {
    if n > UIO_MAXIOV then UIO_MAXIOV else n
  }

  /** Sending every message as sendmsg would, asking each time. */
  function AskingEachTime<S>(k: Socket<S>, s: S, msgs: seq<UserMsg>): Outcome<S> {
    BatchFrom(k, s, None, msgs, Limit(|msgs|), 0, [], [])
  }

  /** With the remembered address, whose buffer starts as whatever is on the stack. */
  function WithShortcut<S>(k: Socket<S>, s: S, msgs: seq<UserMsg>, stack: seq<Byte>): Outcome<S>
    requires |stack| == STORAGE
  {
    BatchFrom(k, s, Some(Used(UINT_MAX, stack)), msgs, Limit(|msgs|), 0, [], [])
  }

  /** __sys_sendmmsg. On a trustworthy socket nothing tells it from asking for every message. */
  method SendMmsg<S(!new)>(k: Socket<S>, s0: S, msgs: seq<UserMsg>, stack: seq<Byte>)
    returns (s: S, ret: int, lens: seq<int>, given: seq<Msg>)
    requires |stack| == STORAGE
    ensures Outcome(s, ret, lens, given) == WithShortcut(k, s0, msgs, stack)
    ensures Trustworthy(k) ==> Outcome(s, ret, lens, given) == AskingEachTime(k, s0, msgs)
  {
    var vlen := Limit(|msgs|);
    var used := Some(Used(UINT_MAX, stack));
    var datagrams, err := 0, 0;
    var batch := true;
    s, lens, given := s0, [], [];
    while datagrams < vlen
      invariant datagrams <= vlen && err == 0 && used.Some? && used.value.Valid()
      invariant datagrams < vlen ==> batch
      invariant BatchFrom(k, s, used, msgs, vlen, datagrams, lens, given) == WithShortcut(k, s0, msgs, stack)
    {
      if datagrams == vlen - 1 {
        batch := false;
      }
      var one := SysSendmsg(k, s, used, msgs[datagrams], batch);
      s, err, used, given := one.s, one.err, one.used, given + one.given;
      if err < 0 {
        break;
      }
      if msgs[datagrams].putFails {
        err := -EFAULT;
        break;
      }
      lens, err := lens + [err], 0;
      datagrams := datagrams + 1;
      if one.left {
        break;
      }
    }
    ret := Return(datagrams, err);
    if Trustworthy(k) {
      ShortcutAgreesFrom(k, s0, Used(UINT_MAX, stack), msgs, vlen, 0, [], []);
    }
  }

  /** The address left after a message went out could itself be sent to. */
  predicate LeavesAuthorised<S>(k: Socket<S>, s: S, a: Address) {
    var r := k.send(s, Msg(a, true));
    k.auth(a) == 0 && r.ret >= 0 && !r.left && r.name != [] ==> k.auth(r.name) == 0
  }

  /** The security module answers 0 or an error, and what is remembered is always authorised. */
  ghost predicate Trustworthy<S(!new)>(k: Socket<S>) {
    (forall a: Address :: a != [] ==> k.auth(a) <= 0) && (forall s, a :: LeavesAuthorised(k, s, a))
  }

  /** Whatever would match is authorised. */
  ghost predicate Sound<S>(k: Socket<S>, used: Used) {
    forall a: Address :: used.Matches(a) ==> k.auth(a) == 0
  }

  lemma {:induction false} ShortcutAgreesFrom<S(!new)>(k: Socket<S>, s: S, used: Used, msgs: seq<UserMsg>, vlen: nat, i: nat,
                                              lens: seq<int>, given: seq<Msg>)
    requires Trustworthy(k) && used.Valid() && Sound(k, used) && i <= vlen <= |msgs|
    ensures BatchFrom(k, s, Some(used), msgs, vlen, i, lens, given) == BatchFrom(k, s, None, msgs, vlen, i, lens, given)
    decreases vlen - i
  {
    if i < vlen {
      var one := SysSendmsg(k, s, Some(used), msgs[i], i != vlen - 1);
      var asked := SysSendmsg(k, s, None, msgs[i], i != vlen - 1);
      if one.err >= 0 && !msgs[i].putFails && !one.left && i + 1 < vlen {
        assert LeavesAuthorised(k, s, CopyHeader(msgs[i]).name);
        ShortcutAgreesFrom(k, one.s, one.used.value, msgs, vlen, i + 1, lens + [one.err], given + one.given);
      }
    }
  }

  /** A message to `a` that passes every check. */
  function Plain(a: Address, bytes: nat): (u: UserMsg)
    ensures CopyHeader(u) == Header(a)
  {
    UserMsg(false, Some(a), |a|, false, 0, 0, bytes, false)
  }

  /** The shortcut is right about every batch from every state exactly when the socket is trustworthy. */
  lemma ShortcutAgrees<S(!new)>(k: Socket<S>, s0: S, stack: seq<Byte>)
    requires |stack| == STORAGE
    ensures Trustworthy(k) <==>
            forall s, msgs :: WithShortcut(k, s, msgs, stack) == AskingEachTime(k, s, msgs)
    ensures (forall a: Address :: k.auth(a) <= 0) && (forall s, m :: k.send(s, m).name == m.name) ==> Trustworthy(k)
  {
    if Trustworthy(k) {
      forall s, msgs ensures WithShortcut(k, s, msgs, stack) == AskingEachTime(k, s, msgs) {
        ShortcutAgreesFrom(k, s, Used(UINT_MAX, stack), msgs, Limit(|msgs|), 0, [], []);
      }
    }
    if forall s, msgs :: WithShortcut(k, s, msgs, stack) == AskingEachTime(k, s, msgs) {
      forall a: Address | a != [] ensures k.auth(a) <= 0 {
        if k.auth(a) > 0 {
          SecondSlipsThrough(k, s0, a, 0, a, stack);
        }
      }
      forall s, a: Address ensures LeavesAuthorised(k, s, a) {
        if !LeavesAuthorised(k, s, a) {
          SecondSlipsThrough(k, s, a, 1, k.send(s, Msg(a, true)).name, stack);
        }
      }
    }
  }

  /** Two messages: if the first leaves `b` remembered although `b` is refused, the second goes out unasked. */
  lemma SecondSlipsThrough<S>(k: Socket<S>, s: S, a: Address, bytes: nat, b: Address, stack: seq<Byte>)
    requires |stack| == STORAGE && b != [] && k.auth(b) != 0
    requires var one := SysSendmsg(k, s, Some(Used(UINT_MAX, stack)), Plain(a, bytes), true);
             one.err >= 0 && !one.left && one.used.value.Matches(b)
    ensures var msgs := [Plain(a, bytes), Plain(b, 0)];
            WithShortcut(k, s, msgs, stack) != AskingEachTime(k, s, msgs)
  {
    var msgs := [Plain(a, bytes), Plain(b, 0)];
    var used := Some(Used(UINT_MAX, stack));
    var one := SysSendmsg(k, s, used, msgs[0], true);
    var asked := SysSendmsg(k, s, None, msgs[0], true);
    assert one == asked.(used := one.used);
    var two := SysSendmsg(k, one.s, one.used, msgs[1], false);
    var refused := SysSendmsg(k, one.s, None, msgs[1], false);
    assert |two.given| == 1 && refused.given == [];
    FirstThenLast(k, s, used, msgs);
    FirstThenLast(k, s, None, msgs);
  }

  lemma FirstThenLast<S>(k: Socket<S>, s: S, used: Option<Used>, msgs: seq<UserMsg>)
    requires |msgs| == 2 && !msgs[0].putFails && (used.Some? ==> used.value.Valid())
    requires var one := SysSendmsg(k, s, used, msgs[0], true); one.err >= 0 && !one.left
    ensures var one := SysSendmsg(k, s, used, msgs[0], true);
            BatchFrom(k, s, used, msgs, 2, 0, [], []).given ==
            one.given + SysSendmsg(k, one.s, one.used, msgs[1], false).given
  {
    var one := SysSendmsg(k, s, used, msgs[0], true);
    var two := SysSendmsg(k, one.s, one.used, msgs[1], false);
    assert [] + one.given == one.given;
    var rest := BatchFrom(k, one.s, one.used, msgs, 2, 1, [] + [one.err], [] + one.given);
    assert BatchFrom(k, s, used, msgs, 2, 0, [], []) == rest;
    assert rest.given == [] + one.given + two.given;
  }
}
