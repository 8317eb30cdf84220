/**
 * Sockets and what they hold (net/socket.c): creation, pairing, accept, kernel accept and release,
 * with the references on protocol modules, the files, the descriptors and the protocol sockets.
 */
module SocketModules {

  import opened Wrappers

  type Module = nat
  type SocketId = nat
  type File = nat
  type Fd = nat

  /** What a call that is not shown answers: 0 or an error. */
  type Answer = x: int | x <= 0

  const EMFILE := 24
  const ENFILE := 23
  const ENOMEM := 12
  const EINVAL := 22
  const ENOTSOCK := 88
  const EAFNOSUPPORT := 97
  const ECONNABORTED := 103
  const NPROTO := 46
  const SOCK_MAX := 11
  const PF_INET := 2
  const PF_PACKET := 17
  const SOCK_PACKET := 10

  /** struct socket: the module that owns ops, whether there is a protocol socket, and the file. */
  datatype Socket = Socket(ops: Option<Module>, sk: bool, file: Option<File>)

  const BLANK := Socket(None, false, None)

  datatype Descriptor = Reserved | Installed(file: File)

  /**
   * `refs` has one element for every reference on a module that is taken here. `lost` counts the
   * protocol sockets that were not released when their socket went away.
   */
  datatype Kernel = Kernel(
    refs: multiset<Module>, sockets: map<SocketId, Socket>, files: map<File, SocketId>,
    fds: map<Fd, Descriptor>, lost: nat)

  function Get(k: Kernel, m: Module): Kernel {
    k.(refs := k.refs + multiset{m})
  }

  /** __module_get: only on a module that is held already. */
  function GetMore(k: Kernel, m: Module): Kernel
    requires m in k.refs
  {
    Get(k, m)
  }

  function Put(k: Kernel, m: Module): Kernel
    requires m in k.refs
  {
    k.(refs := k.refs - multiset{m})
  }

  /** sock_alloc, or a change to a socket. */
  function Set(k: Kernel, s: SocketId, sock: Socket): Kernel {
    k.(sockets := k.sockets[s := sock])
  }

  /** iput of the socket's inode. */
  function Drop(k: Kernel, s: SocketId): Kernel
    requires s in k.sockets
  {
    k.(sockets := k.sockets - {s}, lost := if k.sockets[s].sk then k.lost + 1 else k.lost)
  }

  lemma GetThenPut(k: Kernel, m: Module)
    ensures Put(Get(k, m), m) == k
  {
    assert k.refs + multiset{m} - multiset{m} == k.refs;
  }

  lemma GetsThenPut(k: Kernel, m: Module, n: Module)
    ensures Put(Get(Get(k, m), n), m) == Get(k, n)
  {
    assert k.refs + multiset{m} + multiset{n} - multiset{m} == k.refs + multiset{n};
  }

  lemma SetThenDrop(k: Kernel, s: SocketId, sock: Socket)
    requires s !in k.sockets && !sock.sk
    ensures Drop(Set(k, s, sock), s) == k
  {
    assert k.sockets[s := sock] - {s} == k.sockets;
  }

  lemma SetTwice(k: Kernel, s: SocketId, sock: Socket, sock': Socket)
    ensures Set(Set(k, s, sock), s, sock') == Set(k, s, sock')
  {
    assert k.sockets[s := sock][s := sock'] == k.sockets[s := sock'];
  }

  /** `k` after the release of a socket that has no file. */
  function Released(k: Kernel, s: SocketId): Kernel
    requires s in k.sockets && (k.sockets[s].ops.Some? ==> k.sockets[s].ops.value in k.refs)
  {
    var ops := k.sockets[s].ops;
    if ops.Some? then Drop(Put(Set(k, s, BLANK), ops.value), s) else Drop(k, s)
  }

  /** Releasing a socket that holds its reference brings back what was there before it. */
  lemma ReleasedMade(k: Kernel, s: SocketId, m: Module, sk: bool)
    requires s !in k.sockets
    ensures Released(Get(Set(k, s, Socket(Some(m), sk, None)), m), s) == k
  {
    SetTwice(k, s, Socket(Some(m), sk, None), BLANK);
    GetThenPut(Set(k, s, BLANK), m);
    SetThenDrop(k, s, BLANK);
  }

  /**
   * __sock_release of a socket that has no file: it is gone with its module reference, nothing else is
   * touched, and its protocol socket is lost exactly if there were no operations to release it.
   */
  method SockRelease(k0: Kernel, s: SocketId) returns (k: Kernel)
    requires s in k0.sockets && k0.sockets[s].file.None?
    requires k0.sockets[s].ops.Some? ==> k0.sockets[s].ops.value in k0.refs
    ensures s !in k.sockets && k.sockets == k0.sockets - {s} && k.files == k0.files && k.fds == k0.fds
    ensures k0.refs == k.refs + if k0.sockets[s].ops.Some? then multiset{k0.sockets[s].ops.value} else multiset{}
    ensures k.lost == k0.lost + if k0.sockets[s].sk && k0.sockets[s].ops.None? then 1 else 0
    ensures k == Released(k0, s)
  {
    k := k0;
    var sock := k.sockets[s];
    if sock.ops.Some? {
      k := Set(k, s, sock.(sk := false, ops := None));       // ops->release frees the protocol socket
      k := Put(k, sock.ops.value);
    }
    k := Drop(k, s);
    assert k.sockets == k0.sockets - {s};
  }

  /** Everything the creation of a socket depends on. */
  datatype Creation = Creation(
    family: int, kind: int, kern: bool, socketCount: int, maxSockets: int, allowed: Answer, inode: bool,
    families: map<int, Module>, familyLive: bool, created: int, owner: Module, ownerLive: bool, post: Answer)
  {
    function Family(): int {
      if family == PF_INET && kind == SOCK_PACKET then PF_PACKET else family
    }

    /** The family is registered and its module can be held. */
    predicate Found() {
      Family() in families && familyLive
    }

    predicate Admitted() {
      && 0 <= family < NPROTO && 0 <= kind < SOCK_MAX
      && (kern || maxSockets <= 0 || socketCount < maxSockets) && allowed == 0 && inode
    }

    /** The family created the socket, but the module that owns its operations is going away. */
    predicate Late() {
      Found() && created >= 0 && !ownerLive
    }

    predicate Made() {
      Found() && created >= 0 && ownerLive && post == 0
    }

    predicate Busy() {
      Admitted() && Late()
    }

    predicate Works() {
      Admitted() && Made()
    }
  }

  /** The part of __sock_create that runs with the family's module held: 0, or an error with ops NULL. */
  method CreateHeld(k0: Kernel, s: SocketId, pf: Module, a: Creation) returns (k: Kernel, err: int)
    ensures a.created >= 0 && a.ownerLive ==> err == 0 && k == Get(Set(k0, s, Socket(Some(a.owner), true, None)), a.owner)
    ensures a.created < 0 ==> err == a.created && k == Set(k0, s, BLANK)
    ensures a.created >= 0 && !a.ownerLive ==> err == -EAFNOSUPPORT && k == Set(k0, s, Socket(None, true, None))
  {
    var sock := BLANK;
    k := Get(Set(k0, s, sock), pf);
    label ModulePut: {
      err := a.created;
      if err < 0 {
        break ModulePut;                           // create has released its protocol socket
      }
      sock := Socket(Some(a.owner), true, None);
      SetTwice(k0, s, BLANK, sock);
      k := Set(k, s, sock);
      if !a.ownerLive {
        err := -EAFNOSUPPORT;
        break ModulePut;
      }
      k := Get(k, a.owner);
      k := Put(k, pf);
      GetsThenPut(Set(k0, s, sock), pf, a.owner);
      return k, 0;
    }
    SetTwice(k0, s, sock, sock.(ops := None));
    GetThenPut(Set(k0, s, sock.(ops := None)), pf);
    k := Set(k, s, sock.(ops := None));
    k := Put(k, pf);
  }

  /** A socket of module `m` without a file. */
  function Bare(k: Kernel, s: SocketId, m: Module, sk: bool): Kernel {
    Get(Set(k, s, Socket(Some(m), sk, None)), m)
  }

  /** The rest of __sock_create, once the request is admitted and the inode is there. */
  method CreateAdmitted(k0: Kernel, s: SocketId, a: Creation) returns (k: Kernel, err: int)
    requires s !in k0.sockets
    ensures err == 0 <==> a.Made()
    ensures err == 0 ==> k == Bare(k0, s, a.owner, true)
    ensures err != 0 ==> err < 0 && k == k0.(lost := if a.Late() then k0.lost + 1 else k0.lost)
  {
    err := -EAFNOSUPPORT;
    k := Set(k0, s, BLANK);
    SetThenDrop(k0, s, BLANK);
    if a.Found() {
      k, err := CreateHeld(k0, s, a.families[a.Family()], a);
      if err == 0 {
        err := a.post;
        if err == 0 {
          return;
        }
        ReleasedMade(k0, s, a.owner, true);
      }
    }
    k := SockRelease(k, s);
  }

  /** __sock_create. A failure leaves nothing behind, except that the busy exit loses the protocol socket. */
  method SockCreate(k0: Kernel, s: SocketId, a: Creation) returns (k: Kernel, err: int)
    requires s !in k0.sockets
    ensures err == 0 <==> a.Works()
    ensures err == 0 ==> k == Bare(k0, s, a.owner, true)
    ensures err != 0 ==> err < 0 && k == k0.(lost := k0.lost + if a.Busy() then 1 else 0)
  {
    if a.family < 0 || a.family >= NPROTO {
      return k0, -EAFNOSUPPORT;
    }
    if a.kind < 0 || a.kind >= SOCK_MAX {
      return k0, -EINVAL;
    }
    if !a.kern && a.maxSockets > 0 && a.socketCount >= a.maxSockets {
      return k0, -EMFILE;
    }
    if a.allowed != 0 {
      return k0, a.allowed;
    }
    if !a.inode {
      return k0, -ENFILE;
    }
    k, err := CreateAdmitted(k0, s, a);
  }

  /** `k` after the last reference on a file went: sock_close, then the inode. */
  function Closed(k: Kernel, f: File): Kernel
    requires f in k.files && k.files[f] in k.sockets
    requires k.sockets[k.files[f]].ops.Some? ==> k.sockets[k.files[f]].ops.value in k.refs
  {
    var s := k.files[f];
    Released(Set(k, s, k.sockets[s].(file := None)), s).(files := k.files - {f})
  }

  /** A socket of module `m` with a file. */
  function Filed(k: Kernel, s: SocketId, m: Module, sk: bool, f: File): Kernel {
    Get(Set(k, s, Socket(Some(m), sk, Some(f))), m).(files := k.files[f := s])
  }

  lemma ClosedFiled(k: Kernel, s: SocketId, m: Module, sk: bool, f: File)
    requires s !in k.sockets && f !in k.files
    ensures Closed(Filed(k, s, m, sk, f), f) == k
  {
    SetTwice(k, s, Socket(Some(m), sk, Some(f)), Socket(Some(m), sk, None));
    ReleasedMade(k, s, m, sk);
    assert k.files[f := s] - {f} == k.files;
  }

  /** fput of a socket's file, through sock_close and __sock_release with the file still set. */
  method Fput(k0: Kernel, f: File) returns (k: Kernel)
    requires f in k0.files && k0.files[f] in k0.sockets && k0.sockets[k0.files[f]].file == Some(f)
    requires k0.sockets[k0.files[f]].ops.Some? ==> k0.sockets[k0.files[f]].ops.value in k0.refs
    ensures k == Closed(k0, f)
  {
    k := k0;
    var s := k.files[f];
    var sock := k.sockets[s];
    if sock.ops.Some? {
      k := Set(k, s, sock.(sk := false, ops := None));
      k := Put(k, sock.ops.value);
    }
    k := Set(k, s, k.sockets[s].(file := None));
    SetTwice(k0, s, sock.(sk := false, ops := None), BLANK);
    SetTwice(k0, s, sock.(file := None), BLANK);
    k := Drop(k, s).(files := k.files - {f});
  }

  /** sock_alloc_file: on failure it releases the socket itself. */
  method SockAllocFile(k0: Kernel, s: SocketId, f: File, room: bool) returns (k: Kernel, ok: bool)
    requires s in k0.sockets && k0.sockets[s].file.None?
    requires k0.sockets[s].ops.Some? ==> k0.sockets[s].ops.value in k0.refs
    ensures ok == room
    ensures !ok ==> k == Released(k0, s)
    ensures ok ==> k == Set(k0, s, k0.sockets[s].(file := Some(f))).(files := k0.files[f := s])
  {
    ok := room;
    if !ok {
      k := SockRelease(k0, s);
      return;
    }
    k := Set(k0, s, k0.sockets[s].(file := Some(f)));
    k := k.(files := k.files[f := s]);
  }

  function Reserve(k: Kernel, fd: Fd): Kernel {
    k.(fds := k.fds[fd := Reserved])
  }

  function Install(k: Kernel, fd: Fd, f: File): Kernel {
    k.(fds := k.fds[fd := Installed(f)])
  }

  /** put_unused_fd. */
  function Unreserve(k: Kernel, fd: Fd): Kernel
    requires fd in k.fds && k.fds[fd].Reserved?
  {
    k.(fds := k.fds - {fd})
  }

  lemma ReserveThenUnreserve(k: Kernel, fd: Fd)
    requires fd !in k.fds
    ensures Unreserve(Reserve(k, fd), fd) == k
  {
    assert k.fds[fd := Reserved] - {fd} == k.fds;
  }

  lemma ReserveThenInstall(k: Kernel, fd: Fd, f: File)
    ensures Install(Reserve(k, fd), fd, f) == Install(k, fd, f)
  {
    assert k.fds[fd := Reserved][fd := Installed(f)] == k.fds[fd := Installed(f)];
  }

  /** The names of the objects a call makes, if it gets that far. */
  datatype Names = Names(s: SocketId, f: File, fd: Fd)

  predicate New(k: Kernel, n: Names) {
    n.s !in k.sockets && n.f !in k.files && n.fd !in k.fds
  }

  /** A socket of module `m` with its file and its descriptor. */
  function Open(k: Kernel, n: Names, m: Module): Kernel {
    Install(Filed(k, n.s, m, true, n.f), n.fd, n.f)
  }

  /** sock_map_fd, which releases the socket when it fails. `fd` is the descriptor or an error. */
  method SockMapFd(k1: Kernel, ghost k0: Kernel, n: Names, ghost m: Module, fd: int, room: Answer)
    returns (k: Kernel, ret: int)
    requires New(k0, n) && k1 == Bare(k0, n.s, m, true)
    requires fd < 0 || fd == n.fd
    ensures fd >= 0 && room == 0 ==> ret == n.fd && k == Open(k0, n, m)
    ensures fd < 0 ==> ret == fd && k == k0
    ensures fd >= 0 && room < 0 ==> ret == room && k == k0
  {
    ReleasedMade(k0, n.s, m, true);
    if fd < 0 {
      k := SockRelease(k1, n.s);
      return k, fd;
    }
    k := Reserve(k1, fd);
    ReserveThenUnreserve(k0, fd);
    ReserveThenInstall(k0, fd, n.f);
    SetTwice(k0, n.s, Socket(Some(m), true, None), Socket(Some(m), true, Some(n.f)));
    ReleasedMade(Reserve(k0, fd), n.s, m, true);
    var ok;
    k, ok := SockAllocFile(k, n.s, n.f, room == 0);
    if ok {
      k := Install(k, fd, n.f);
      return k, fd;
    }
    k := Unreserve(k, fd);
    return k, room;
  }

  /** __sys_socket. */
  method SysSocket(k0: Kernel, n: Names, a: Creation, fd: int, room: Answer) returns (k: Kernel, ret: int)
    requires New(k0, n)
    requires fd < 0 || fd == n.fd
    ensures a.Works() && fd >= 0 && room == 0 <==> ret >= 0
    ensures ret >= 0 ==> ret == n.fd && k == Open(k0, n, a.owner)
    ensures ret < 0 ==> k == k0.(lost := k0.lost + if a.Busy() then 1 else 0)
  {
    k, ret := SockCreate(k0, n.s, a);
    if ret < 0 {
      return;
    }
    k, ret := SockMapFd(k, k0, n, a.owner, fd, room);
  }

  /** What accept depends on: alloc and file room, the security hook, the protocol, and the peer's address if asked for. */
  datatype Accept = Accept(inode: bool, room: Answer, allowed: Answer, accepted: int, peer: bool, getname: int, move: Answer)
  {
    predicate Works() {
      inode && room == 0 && allowed == 0 && accepted >= 0 && (peer ==> getname >= 0 && move == 0)
    }
  }

  /** A socket that has its operations, with their module held. */
  predicate Listening(k: Kernel, l: SocketId) {
    l in k.sockets && k.sockets[l].ops.Some? && k.sockets[l].ops.value in k.refs
  }

  /** do_accept on a listening socket of module `m`, or on a file that is no socket. */
  method DoAccept(k0: Kernel, listener: Option<SocketId>, n: Names, a: Accept) returns (k: Kernel, err: int)
    requires n.s !in k0.sockets && n.f !in k0.files
    requires listener.Some? ==> Listening(k0, listener.value)
    ensures err == 0 <==> listener.Some? && a.Works()
    ensures err == 0 ==> k == Filed(k0, n.s, k0.sockets[listener.value].ops.value, true, n.f)
    ensures err != 0 ==> err < 0 && k == k0
  {
    if listener.None? {
      return k0, -ENOTSOCK;
    }
    if !a.inode {
      return k0, -ENFILE;
    }
    var m := k0.sockets[listener.value].ops.value;
    k := Set(k0, n.s, Socket(Some(m), false, None));
    k := GetMore(k, m);
    ReleasedMade(k0, n.s, m, false);
    SetTwice(k0, n.s, Socket(Some(m), false, None), Socket(Some(m), false, Some(n.f)));
    SetTwice(k0, n.s, Socket(Some(m), false, Some(n.f)), Socket(Some(m), true, Some(n.f)));
    var ok;
    k, ok := SockAllocFile(k, n.s, n.f, a.room == 0);
    if !ok {
      return k, a.room;
    }
    assert k == Filed(k0, n.s, m, false, n.f);
    ghost var sk := false;
    label OutFd: {
      err := a.allowed;
      if err != 0 {
        break OutFd;
      }
      err := a.accepted;
      if err < 0 {
        break OutFd;
      }
      k, sk := Set(k, n.s, k.sockets[n.s].(sk := true)), true;
      if a.peer {
        if a.getname < 0 {
          err := -ECONNABORTED;
          break OutFd;
        }
        err := a.move;
        if err < 0 {
          break OutFd;
        }
      }
      return k, 0;
    }
    ClosedFiled(k0, n.s, m, sk, n.f);
    k := Fput(k, n.f);
  }

  /** __sys_accept4_file. */
  method Accept4(k0: Kernel, listener: Option<SocketId>, n: Names, flagsOk: bool, fd: int, a: Accept)
    returns (k: Kernel, ret: int)
    requires New(k0, n)
    requires fd < 0 || fd == n.fd
    requires listener.Some? ==> Listening(k0, listener.value)
    ensures ret >= 0 <==> flagsOk && fd >= 0 && listener.Some? && a.Works()
    ensures ret >= 0 ==> ret == n.fd && k == Open(k0, n, k0.sockets[listener.value].ops.value)
    ensures ret < 0 ==> k == k0
  {
    if !flagsOk {
      return k0, -EINVAL;
    }
    if fd < 0 {
      return k0, fd;
    }
    k := Reserve(k0, fd);
    ReserveThenUnreserve(k0, fd);
    ReserveThenInstall(k0, fd, n.f);
    k, ret := DoAccept(k, listener, n, a);
    if ret < 0 {
      k := Unreserve(k, fd);
      return;
    }
    k := Install(k, fd, n.f);
    return k, fd;
  }

  /** What kernel_accept depends on. */
  datatype Lite = Lite(allowed: Answer, inode: bool, post: Answer, accepted: int)
  {
    predicate Works() {
      allowed == 0 && inode && post == 0 && accepted >= 0
    }
  }

  /** sock_create_lite: a socket without operations. */
  method SockCreateLite(k0: Kernel, s: SocketId, a: Lite) returns (k: Kernel, err: int)
    requires s !in k0.sockets
    ensures err == 0 <==> a.allowed == 0 && a.inode && a.post == 0
    ensures err == 0 ==> k == Set(k0, s, BLANK)
    ensures err != 0 ==> err < 0 && k == k0
  {
    if a.allowed != 0 {
      return k0, a.allowed;
    }
    if !a.inode {
      return k0, -ENOMEM;
    }
    k := Set(k0, s, BLANK);
    if a.post != 0 {
      SetThenDrop(k0, s, BLANK);
      k := SockRelease(k, s);
    }
    return k, a.post;
  }

  /** kernel_accept. */
  method KernelAccept(k0: Kernel, listener: SocketId, s: SocketId, a: Lite) returns (k: Kernel, err: int)
    requires s !in k0.sockets && Listening(k0, listener)
    ensures err >= 0 <==> a.Works()
    ensures err >= 0 ==> k == Bare(k0, s, k0.sockets[listener].ops.value, true)
    ensures err < 0 ==> k == k0
  {
    k, err := SockCreateLite(k0, s, a);
    if err < 0 {
      return;
    }
    err := a.accepted;
    if err < 0 {
      SetThenDrop(k0, s, BLANK);
      k := SockRelease(k, s);
      return;
    }
    var m := k0.sockets[listener].ops.value;
    SetTwice(k0, s, BLANK, Socket(None, true, None));
    SetTwice(k0, s, Socket(None, true, None), Socket(Some(m), true, None));
    k := Set(k, s, k.sockets[s].(sk := true));              // ops->accept grafted the connection
    k := Set(k, s, k.sockets[s].(ops := k.sockets[listener].ops));
    k := GetMore(k, m);
  }

  /** What two creations in a row lose. */
  function LostByTwo(first: Creation, second: Creation): nat {
    if first.Busy() || (first.Works() && second.Busy()) then 1 else 0
  }

  /**
   * What socketpair depends on: descriptors (or errors), stores to the user, two creations, the hook,
   * the protocol, the files.
   */
  datatype Pairing = Pairing(
    fd1: int, fd2: int, put1: Answer, put2: Answer, first: Creation, second: Creation,
    allowed: Answer, paired: int, room1: Answer, room2: Answer)
  {
    predicate Reserves() {
      fd1 >= 0 && fd2 >= 0 && put1 == 0 && put2 == 0
    }

    predicate Works() {
      Reserves() && first.Works() && second.Works() && allowed == 0 && paired >= 0 && room1 == 0 && room2 == 0
    }

    function Lost(): nat {
      if Reserves() then LostByTwo(first, second) else 0
    }
  }

  lemma BareCommutes(k: Kernel, s1: SocketId, m1: Module, s2: SocketId, m2: Module)
    requires s1 != s2
    ensures Bare(Bare(k, s1, m1, true), s2, m2, true) == Bare(Bare(k, s2, m2, true), s1, m1, true)
  {
    var (a, b) := (Socket(Some(m1), true, None), Socket(Some(m2), true, None));
    assert k.sockets[s1 := a][s2 := b] == k.sockets[s2 := b][s1 := a];
    assert k.refs + multiset{m1} + multiset{m2} == k.refs + multiset{m2} + multiset{m1};
  }

  lemma BareCommutesWithFiled(k: Kernel, s1: SocketId, m1: Module, f: File, s2: SocketId, m2: Module)
    requires s1 != s2
    ensures Bare(Filed(k, s1, m1, true, f), s2, m2, true) == Filed(Bare(k, s2, m2, true), s1, m1, true, f)
  {
    var (a, b) := (Socket(Some(m1), true, Some(f)), Socket(Some(m2), true, None));
    assert k.sockets[s1 := a][s2 := b] == k.sockets[s2 := b][s1 := a];
    assert k.refs + multiset{m1} + multiset{m2} == k.refs + multiset{m2} + multiset{m1};
  }

  /** Giving a bare socket its file. */
  lemma BareToFiled(k: Kernel, s: SocketId, m: Module, f: File)
    ensures var b := Bare(k, s, m, true);
      Set(b, s, b.sockets[s].(file := Some(f))).(files := k.files[f := s]) == Filed(k, s, m, true, f)
  {
    SetTwice(k, s, Socket(Some(m), true, None), Socket(Some(m), true, Some(f)));
  }

  /** __sys_socketpair: the two sockets. */
  method CreateTwo(k0: Kernel, s1: SocketId, s2: SocketId, first: Creation, second: Creation) returns (k: Kernel, err: int)
    requires s1 !in k0.sockets && s2 !in k0.sockets && s1 != s2
    ensures err == 0 <==> first.Works() && second.Works()
    ensures err == 0 ==> k == Bare(Bare(k0, s1, first.owner, true), s2, second.owner, true)
    ensures err != 0 ==> err < 0
    ensures err != 0 ==> k == k0.(lost := k0.lost + LostByTwo(first, second))
  {
    k, err := SockCreate(k0, s1, first);
    if err < 0 {
      return;
    }
    k, err := SockCreate(k, s2, second);
    if err < 0 {
      ReleasedMade(k0.(lost := k.lost), s1, first.owner, true);
      k := SockRelease(k, s1);
    }
  }

  /** __sys_socketpair: the two sockets, up to the protocol's socketpair. */
  method MakePair(k0: Kernel, s1: SocketId, s2: SocketId, a: Pairing) returns (k: Kernel, err: int)
    requires s1 !in k0.sockets && s2 !in k0.sockets && s1 != s2
    ensures err == 0 <==> a.first.Works() && a.second.Works() && a.allowed == 0 && a.paired >= 0
    ensures err == 0 ==> k == Bare(Bare(k0, s1, a.first.owner, true), s2, a.second.owner, true)
    ensures err != 0 ==> err < 0
    ensures err != 0 ==> k == k0.(lost := k0.lost + LostByTwo(a.first, a.second))
  {
    k, err := CreateTwo(k0, s1, s2, a.first, a.second);
    if err < 0 {
      return;
    }
    err := a.allowed;
    if err == 0 && a.paired < 0 {
      err := a.paired;
    }
    if err != 0 {
      ReleasedMade(Bare(k0, s1, a.first.owner, true), s2, a.second.owner, true);
      ReleasedMade(k0, s1, a.first.owner, true);
      k := SockRelease(k, s2);
      k := SockRelease(k, s1);
    }
  }

  /** __sys_socketpair: the two files. A socket whose file fails is released by sock_alloc_file. */
  method FilePair(k1: Kernel, ghost k0: Kernel, n1: Names, n2: Names, ghost m1: Module, ghost m2: Module,
                  room1: Answer, room2: Answer)
    returns (k: Kernel, err: int)
    requires n1.s !in k0.sockets && n2.s !in k0.sockets && n1.s != n2.s
    requires n1.f !in k0.files && n2.f !in k0.files && n1.f != n2.f
    requires k1 == Bare(Bare(k0, n1.s, m1, true), n2.s, m2, true)
    ensures err == 0 <==> room1 == 0 && room2 == 0
    ensures err == 0 ==> k == Filed(Filed(k0, n1.s, m1, true, n1.f), n2.s, m2, true, n2.f)
    ensures err != 0 ==> err < 0 && k == k0
  {
    ghost var other := Bare(k0, n2.s, m2, true);
    BareCommutes(k0, n1.s, m1, n2.s, m2);
    ReleasedMade(other, n1.s, m1, true);
    ReleasedMade(k0, n2.s, m2, true);
    var ok;
    k, ok := SockAllocFile(k1, n1.s, n1.f, room1 == 0);
    if !ok {
      k := SockRelease(k, n2.s);
      return k, room1;
    }
    BareToFiled(other, n1.s, m1, n1.f);
    ghost var filed := Filed(k0, n1.s, m1, true, n1.f);
    BareCommutesWithFiled(k0, n1.s, m1, n1.f, n2.s, m2);
    assert k == Bare(filed, n2.s, m2, true);
    ReleasedMade(filed, n2.s, m2, true);
    k, ok := SockAllocFile(k, n2.s, n2.f, room2 == 0);
    if !ok {
      ClosedFiled(k0, n1.s, m1, true, n1.f);
      k := Fput(k, n1.f);
      return k, room2;
    }
    BareToFiled(filed, n2.s, m2, n2.f);
    return k, 0;
  }

  /** __sys_socketpair with both descriptors reserved, up to their installation. */
  method PairReserved(k0: Kernel, n1: Names, n2: Names, a: Pairing) returns (k: Kernel, err: int)
    requires n1.s !in k0.sockets && n2.s !in k0.sockets && n1.s != n2.s
    requires n1.f !in k0.files && n2.f !in k0.files && n1.f != n2.f
    requires a.fd1 >= 0 && a.fd2 >= 0
    ensures err == 0 <==> a.Works()
    ensures err == 0 ==>
      k == Filed(Filed(k0, n1.s, a.first.owner, true, n1.f), n2.s, a.second.owner, true, n2.f)
    ensures err != 0 ==> err < 0 && k == k0.(lost := k0.lost + a.Lost())
  {
    if a.put1 != 0 {
      return k0, a.put1;
    }
    if a.put2 != 0 {
      return k0, a.put2;
    }
    k, err := MakePair(k0, n1.s, n2.s, a);
    if err < 0 {
      return;
    }
    k, err := FilePair(k, k0, n1, n2, a.first.owner, a.second.owner, a.room1, a.room2);
  }

  lemma ReserveTwo(k: Kernel, fd1: Fd, fd2: Fd, f1: File, f2: File)
    requires fd1 !in k.fds && fd2 !in k.fds && fd1 != fd2
    ensures Unreserve(Unreserve(Reserve(Reserve(k, fd1), fd2), fd2), fd1) == k
    ensures Install(Install(Reserve(Reserve(k, fd1), fd2), fd1, f1), fd2, f2) == Install(Install(k, fd1, f1), fd2, f2)
  {
    ReserveThenUnreserve(Reserve(k, fd1), fd2);
    ReserveThenUnreserve(k, fd1);
    assert k.fds[fd1 := Reserved][fd2 := Reserved][fd1 := Installed(f1)][fd2 := Installed(f2)] ==
           k.fds[fd1 := Installed(f1)][fd2 := Installed(f2)];
  }

  /** __sys_socketpair. */
  method SocketPair(k0: Kernel, n1: Names, n2: Names, a: Pairing) returns (k: Kernel, err: int)
    requires New(k0, n1) && New(k0, n2) && n1.s != n2.s && n1.f != n2.f && n1.fd != n2.fd
    requires (a.fd1 < 0 || a.fd1 == n1.fd) && (a.fd2 < 0 || a.fd2 == n2.fd)
    ensures err == 0 <==> a.Works()
    ensures err == 0 ==> k == Open(Open(k0, n1, a.first.owner), n2, a.second.owner)
    ensures err != 0 ==> err < 0 && k == k0.(lost := k0.lost + a.Lost())
  {
    if a.fd1 < 0 {
      return k0, a.fd1;
    }
    k := Reserve(k0, a.fd1);
    ReserveThenUnreserve(k0, a.fd1);
    if a.fd2 < 0 {
      k := Unreserve(k, a.fd1);
      return k, a.fd2;
    }
    k := Reserve(k, a.fd2);
    ReserveTwo(k0, a.fd1, a.fd2, n1.f, n2.f);
    k, err := PairReserved(k, n1, n2, a);
    if err != 0 {
      k := Unreserve(k, a.fd2);
      k := Unreserve(k, a.fd1);
      return;
    }
    k := Install(k, a.fd1, n1.f);
    k := Install(k, a.fd2, n2.f);
  }

  /** The sockets whose operations belong to module `m`. */
  function Owned(sockets: map<SocketId, Socket>, m: Module): set<SocketId> {
    set s | s in sockets && sockets[s].ops == Some(m)
  }

  /** Every module's reference count is the number of sockets whose operations it owns. */
  ghost predicate Balanced(k: Kernel) {
    forall m: Module :: k.refs[m] == |Owned(k.sockets, m)|
  }

  /** Between calls every socket is complete, and files and sockets point at each other. */
  ghost predicate Linked(k: Kernel) {
    && (forall s <- k.sockets :: k.sockets[s].ops.Some? && k.sockets[s].sk)
    && (forall f <- k.files :: k.files[f] in k.sockets && k.sockets[k.files[f]].file == Some(f))
    && (forall s <- k.sockets :: k.sockets[s].file.Some? ==>
          k.sockets[s].file.value in k.files && k.files[k.sockets[s].file.value] == s)
  }

  /** Between calls no descriptor is merely reserved, and each is the only one of its file. */
  ghost predicate Described(fds: map<Fd, Descriptor>, files: map<File, SocketId>) {
    && (forall fd <- fds :: fds[fd].Installed? && fds[fd].file in files)
    && (forall fd <- fds, fd' <- fds :: fds[fd] == fds[fd'] ==> fd == fd')
    && (forall f <- files :: exists fd :: fd in fds && fds[fd] == Installed(f))
  }

  ghost predicate Valid(k: Kernel) {
    Balanced(k) && Linked(k) && Described(k.fds, k.files)
  }

  lemma OwnedAdd(sockets: map<SocketId, Socket>, s: SocketId, sock: Socket, n: Module)
    requires s !in sockets
    ensures |Owned(sockets[s := sock], n)| == |Owned(sockets, n)| + if sock.ops == Some(n) then 1 else 0
  {
    assert Owned(sockets[s := sock], n) == Owned(sockets, n) + if sock.ops == Some(n) then {s} else {};
  }

  lemma AddBalanced(k: Kernel, s: SocketId, sock: Socket, m: Module)
    requires Balanced(k) && s !in k.sockets && sock.ops == Some(m)
    ensures Balanced(Get(Set(k, s, sock), m))
  {
    var k' := Get(Set(k, s, sock), m);
    forall n: Module ensures k'.refs[n] == |Owned(k'.sockets, n)| {
      OwnedAdd(k.sockets, s, sock, n);
    }
  }

  lemma ReleaseBalanced(k: Kernel, s: SocketId, m: Module)
    requires Balanced(k) && s in k.sockets && k.sockets[s].ops == Some(m)
    ensures m in k.refs && Balanced(Released(k, s))
  {
    assert s in Owned(k.sockets, m);
    var k' := Released(k, s);
    forall n: Module ensures k'.refs[n] == |Owned(k'.sockets, n)| {
      assert Owned(k'.sockets, n) == Owned(k.sockets, n) - if n == m then {s} else {};
    }
  }

  lemma BareValid(k: Kernel, s: SocketId, m: Module)
    requires Valid(k) && s !in k.sockets
    ensures Valid(Bare(k, s, m, true))
  {
    AddBalanced(k, s, Socket(Some(m), true, None), m);
  }

  lemma OpenDescribed(fds: map<Fd, Descriptor>, files: map<File, SocketId>, n: Names)
    requires Described(fds, files) && n.fd !in fds && n.f !in files
    ensures Described(fds[n.fd := Installed(n.f)], files[n.f := n.s])
  {
    var fds', files' := fds[n.fd := Installed(n.f)], files[n.f := n.s];
    forall f | f in files' ensures exists fd :: fd in fds' && fds'[fd] == Installed(f) {
      if f == n.f {
        assert fds'[n.fd] == Installed(f);
      } else {
        var fd :| fd in fds && fds[fd] == Installed(f);
        assert fds'[fd] == Installed(f);
      }
    }
  }

  lemma CloseDescribed(fds: map<Fd, Descriptor>, files: map<File, SocketId>, fd: Fd)
    requires Described(fds, files) && fd in fds
    ensures Described(fds - {fd}, files - {fds[fd].file})
  {
    var f := fds[fd].file;
    forall g | g in files - {f} ensures exists e :: e in fds - {fd} && (fds - {fd})[e] == Installed(g) {
      var e :| e in fds && fds[e] == Installed(g);
      assert (fds - {fd})[e] == Installed(g);
    }
  }

  lemma OpenValid(k: Kernel, n: Names, m: Module)
    requires Valid(k) && New(k, n)
    ensures Valid(Open(k, n, m))
  {
    AddBalanced(k, n.s, Socket(Some(m), true, Some(n.f)), m);
    OpenDescribed(k.fds, k.files, n);
  }

  lemma ReleasedValid(k: Kernel, s: SocketId)
    requires Valid(k) && s in k.sockets && k.sockets[s].file.None?
    ensures k.sockets[s].ops.value in k.refs && Valid(Released(k, s)) && Released(k, s).lost == k.lost
  {
    ReleaseBalanced(k, s, k.sockets[s].ops.value);
  }

  /** Changing only the file of a socket leaves the books as they are. */
  lemma UnfileBalanced(k: Kernel, s: SocketId)
    requires Balanced(k) && s in k.sockets
    ensures Balanced(Set(k, s, k.sockets[s].(file := None)))
  {
    var k' := Set(k, s, k.sockets[s].(file := None));
    forall n: Module ensures k'.refs[n] == |Owned(k'.sockets, n)| {
      assert Owned(k'.sockets, n) == Owned(k.sockets, n);
    }
  }

  lemma CloseBalanced(k: Kernel, f: File)
    requires Balanced(k) && Linked(k) && f in k.files
    ensures k.sockets[k.files[f]].ops.value in k.refs
    ensures Balanced(Closed(k, f)) && Closed(k, f).lost == k.lost
    ensures Closed(k, f).sockets == k.sockets - {k.files[f]}
  {
    var s := k.files[f];
    assert s in Owned(k.sockets, k.sockets[s].ops.value);
    UnfileBalanced(k, s);
    ReleaseBalanced(Set(k, s, k.sockets[s].(file := None)), s, k.sockets[s].ops.value);
    assert Closed(k, f).sockets == k.sockets - {s};
  }

  lemma CloseLinked(k: Kernel, f: File, k': Kernel)
    requires Linked(k) && f in k.files
    requires k'.sockets == k.sockets - {k.files[f]} && k'.files == k.files - {f}
    ensures Linked(k')
  {
  }

  /** close(fd): the descriptor goes, and with it the file and the socket. */
  method Close(k0: Kernel, fd: Fd) returns (k: Kernel)
    requires Valid(k0) && fd in k0.fds
    ensures Valid(k) && k.lost == k0.lost
    ensures k.fds == k0.fds - {fd} && k.files == k0.files - {k0.fds[fd].file}
    ensures k.sockets == k0.sockets - {k0.files[k0.fds[fd].file]}
    ensures var f := k0.fds[fd].file; k == Gone(k0, k0.files[f]).(fds := k0.fds - {fd}, files := k0.files - {f})
  {
    var f := k0.fds[fd].file;
    ClosedIsGone(k0, fd);
    k := k0.(fds := k0.fds - {fd});
    CloseBalanced(k, f);
    CloseLinked(k, f, Closed(k, f));
    CloseDescribed(k0.fds, k0.files, fd);
    k := Fput(k, f);
  }

  /** A call by user space or by the kernel. Descriptors in `Pairing` and `fd` that are not errors stand for success. */
  datatype Call =
    | CallSocket(creation: Creation, fd: int, room: Answer)
    | CallKernelSocket(creation: Creation)
    | CallPair(pairing: Pairing)
    | CallAccept(listener: Fd, flagsOk: bool, fd: int, accept: Accept)
    | CallKernelAccept(socket: SocketId, lite: Lite)
    | CallRelease(socket: SocketId)
    | CallClose(fd0: Fd)

  /** The protocol sockets lost by a call: only by the busy exit of __sock_create. */
  function Loss(call: Call): nat {
    match call
    case CallSocket(a, _, _) => if a.Busy() then 1 else 0
    case CallKernelSocket(a) => if a.Busy() then 1 else 0
    case CallPair(a) => a.Lost()
    case _ => 0
  }

  function Losses(calls: seq<Call>): nat {
    if calls == [] then 0 else Losses(calls[..|calls| - 1]) + Loss(calls[|calls| - 1])
  }

  /** The names a call takes, from `next` on. */
  function At(next: nat): Names {
    Names(next, next, next)
  }

  /** All names in use are below `next`. */
  ghost predicate Named(k: Kernel, next: nat) {
    && (forall s <- k.sockets :: s < next)
    && (forall f <- k.files :: f < next)
    && (forall fd <- k.fds :: fd < next)
  }

  /** Nothing but the count of lost protocol sockets changes. */
  function Losing(k: Kernel, n: nat): Kernel {
    k.(lost := k.lost + n)
  }

  /**
   * What a call does: it makes exactly the sockets it answers with, each with its file, descriptor and
   * reference, or takes one away with all that it holds, or does nothing but lose a protocol socket.
   */
  ghost function Effect(k: Kernel, next: nat, call: Call): Kernel
    requires Valid(k)
  {
    match call
    case CallSocket(a, fd, room) =>
      if a.Works() && fd >= 0 && room == 0 then Open(k, At(next), a.owner) else Losing(k, Loss(call))
    case CallKernelSocket(a) =>
      if a.Works() then Bare(k, next, a.owner, true) else Losing(k, Loss(call))
    case CallPair(a) =>
      if a.Works() then Open(Open(k, At(next), a.first.owner), At(next + 1), a.second.owner) else Losing(k, Loss(call))
    case CallAccept(listener, flagsOk, fd, a) =>
      if listener in k.fds && flagsOk && fd >= 0 && a.Works() then Open(k, At(next), ModuleOf(k, listener)) else k
    case CallKernelAccept(l, a) =>
      if l in k.sockets && a.Works() then Bare(k, next, k.sockets[l].ops.value, true) else k
    case CallRelease(s) =>
      if s in k.sockets && k.sockets[s].file.None? then Gone(k, s) else k
    case CallClose(fd) =>
      if fd in k.fds then
        Gone(k, k.files[k.fds[fd].file]).(fds := k.fds - {fd}, files := k.files - {k.fds[fd].file})
      else k
  }

  /** The module of the socket behind a descriptor. */
  function ModuleOf(k: Kernel, fd: Fd): Module
    requires Valid(k) && fd in k.fds
  {
    k.sockets[k.files[k.fds[fd].file]].ops.value
  }

  /** A complete socket and its reference are gone. */
  function Gone(k: Kernel, s: SocketId): Kernel
    requires s in k.sockets && k.sockets[s].ops.Some?
  {
    k.(sockets := k.sockets - {s}, refs := k.refs - multiset{k.sockets[s].ops.value})
  }

  lemma OpenNamed(k: Kernel, next: nat, m: Module)
    requires Valid(k) && Named(k, next)
    ensures New(k, At(next)) && Valid(Open(k, At(next), m)) && Named(Open(k, At(next), m), next + 1)
  {
    OpenValid(k, At(next), m);
  }

  lemma OpenTwo(k: Kernel, next: nat, m1: Module, m2: Module)
    requires Valid(k) && Named(k, next)
    ensures var e := Open(Open(k, At(next), m1), At(next + 1), m2); Valid(e) && Named(e, next + 2)
  {
    OpenNamed(k, next, m1);
    OpenNamed(Open(k, At(next), m1), next + 1, m2);
  }

  lemma NewNames(k: Kernel, next: nat)
    requires Named(k, next)
    ensures New(k, At(next)) && New(k, At(next + 1))
  {
  }

  lemma LosingKeepsValid(k: Kernel, next: nat, n: nat)
    requires Valid(k) && Named(k, next)
    ensures Valid(Losing(k, n)) && Named(Losing(k, n), next + 2)
  {
  }

  lemma GoneValid(k: Kernel, s: SocketId, m: Module)
    requires Valid(k) && s in k.sockets && k.sockets[s].ops == Some(m) && k.sockets[s].file.None?
    ensures m in k.refs && Released(k, s) == Gone(k, s) && Valid(Gone(k, s))
  {
    ReleasedValid(k, s);
    assert k.sockets[s := BLANK] - {s} == k.sockets - {s};
  }

  lemma ClosedIsGone(k: Kernel, fd: Fd)
    requires Valid(k) && fd in k.fds
    ensures var f := k.fds[fd].file;
      && f in k.files && k.files[f] in k.sockets && k.sockets[k.files[f]].ops.Some?
      && k.sockets[k.files[f]].ops.value in k.refs
      && Closed(k.(fds := k.fds - {fd}), f) == Gone(k, k.files[f]).(fds := k.fds - {fd}, files := k.files - {f})
  {
    var k', f := k.(fds := k.fds - {fd}), k.fds[fd].file;
    CloseBalanced(k', f);
  }

  lemma BareNamed(k: Kernel, next: nat, m: Module)
    requires Valid(k) && Named(k, next)
    ensures Valid(Bare(k, next, m, true)) && Named(Bare(k, next, m, true), next + 2)
  {
    NewNames(k, next);
    BareValid(k, next, m);
  }

  /** Fewer names are still below `next`. */
  lemma FewerNamed(k: Kernel, next: nat, e: Kernel)
    requires Named(k, next)
    requires e.sockets.Keys <= k.sockets.Keys && e.files.Keys <= k.files.Keys && e.fds.Keys <= k.fds.Keys
    ensures Named(e, next + 2)
  {
  }

  lemma CreatingValid(k: Kernel, next: nat, call: Call)
    requires Valid(k) && Named(k, next) && (call.CallSocket? || call.CallKernelSocket? || call.CallPair?)
    ensures var e := Effect(k, next, call); Valid(e) && Named(e, next + 2) && e.lost == k.lost + Loss(call)
  {
    LosingKeepsValid(k, next, Loss(call));
    match call
    case CallSocket(a, _, _) => OpenNamed(k, next, a.owner);
    case CallKernelSocket(a) => BareNamed(k, next, a.owner);
    case CallPair(a) => OpenTwo(k, next, a.first.owner, a.second.owner);
  }

  lemma AcceptingValid(k: Kernel, next: nat, call: Call)
    requires Valid(k) && Named(k, next) && (call.CallAccept? || call.CallKernelAccept?)
    ensures var e := Effect(k, next, call); Valid(e) && Named(e, next + 2) && e.lost == k.lost
  {
    FewerNamed(k, next, k);
    match call
    case CallAccept(listener, _, _, _) =>
      if listener in k.fds {
        OpenNamed(k, next, ModuleOf(k, listener));
      }
    case CallKernelAccept(l, _) =>
      if l in k.sockets {
        BareNamed(k, next, k.sockets[l].ops.value);
      }
  }

  lemma RemovingValid(k: Kernel, next: nat, call: Call)
    requires Valid(k) && Named(k, next) && (call.CallRelease? || call.CallClose?)
    ensures var e := Effect(k, next, call); Valid(e) && Named(e, next + 2) && e.lost == k.lost
  {
    FewerNamed(k, next, Effect(k, next, call));
    match call
    case CallRelease(s) =>
      if s in k.sockets && k.sockets[s].file.None? {
        GoneValid(k, s, k.sockets[s].ops.value);
      }
    case CallClose(fd) =>
      if fd in k.fds {
        ClosedValid(k, fd);
      }
  }

  /** Every call leaves a valid kernel, and loses what its answers say. */
  lemma EffectValid(k: Kernel, next: nat, call: Call)
    requires Valid(k) && Named(k, next)
    ensures var e := Effect(k, next, call); Valid(e) && Named(e, next + 2) && e.lost == k.lost + Loss(call)
  {
    match call
    case CallAccept(_, _, _, _) => AcceptingValid(k, next, call);
    case CallKernelAccept(_, _) => AcceptingValid(k, next, call);
    case CallRelease(_) => RemovingValid(k, next, call);
    case CallClose(_) => RemovingValid(k, next, call);
    case _ => CreatingValid(k, next, call);
  }

  lemma ClosedValid(k: Kernel, fd: Fd)
    requires Valid(k) && fd in k.fds
    ensures var f := k.fds[fd].file;
      f in k.files && k.files[f] in k.sockets && k.sockets[k.files[f]].ops.Some? &&
      Valid(Gone(k, k.files[f]).(fds := k.fds - {fd}, files := k.files - {f}))
  {
    var k', f := k.(fds := k.fds - {fd}), k.fds[fd].file;
    ClosedIsGone(k, fd);
    CloseBalanced(k', f);
    CloseLinked(k', f, Closed(k', f));
    CloseDescribed(k.fds, k.files, fd);
  }

  /** A run of calls from a kernel without sockets. */
  ghost function Replay(calls: seq<Call>): (k: Kernel)
    ensures Valid(k) && Named(k, 2 * |calls|) && k.lost == Losses(calls)
  {
    if calls == [] then Kernel(multiset{}, map[], map[], map[], 0) else
    var last := |calls| - 1;
    var k := Replay(calls[..last]);
    EffectValid(k, 2 * last, calls[last]);
    Effect(k, 2 * last, calls[last])
  }

  /** One call, with any answers; a descriptor or socket that does not exist is refused before anything is done. */
  method Perform(k0: Kernel, next: nat, call: Call) returns (k: Kernel)
    requires Valid(k0) && Named(k0, next)
    ensures k == Effect(k0, next, call)
  {
    NewNames(k0, next);
    k := k0;
    var ret;
    match call {
      case CallSocket(a, fd, room) =>
        k, ret := SysSocket(k0, At(next), a, if fd < 0 then fd else next, room);
      case CallKernelSocket(a) =>
        k, ret := SockCreate(k0, next, a);
      case CallPair(a) =>
        var named := a.(fd1 := if a.fd1 < 0 then a.fd1 else next, fd2 := if a.fd2 < 0 then a.fd2 else next + 1);
        k, ret := SocketPair(k0, At(next), At(next + 1), named);
      case CallAccept(listener, flagsOk, fd, a) =>
        if listener in k0.fds {
          var l := k0.files[k0.fds[listener].file];
          assert l in Owned(k0.sockets, k0.sockets[l].ops.value);
          k, ret := Accept4(k0, Some(l), At(next), flagsOk, if fd < 0 then fd else next, a);
        }
      case CallKernelAccept(l, a) =>
        if l in k0.sockets {
          assert l in Owned(k0.sockets, k0.sockets[l].ops.value);
          k, ret := KernelAccept(k0, l, next, a);
        }
      case CallRelease(s) =>
        if s in k0.sockets && k0.sockets[s].file.None? {
          GoneValid(k0, s, k0.sockets[s].ops.value);
          k := SockRelease(k0, s);
        }
      case CallClose(fd) =>
        if fd in k0.fds {
          k := Close(k0, fd);
        }
    }
  }

  /**
   * Any run of calls, each with any answers, ends where the calls' effects lead, with the books kept and
   * exactly the protocol sockets of the busy exits lost.
   */
  method Run(calls: seq<Call>) returns (k: Kernel)
    ensures k == Replay(calls) && Valid(k) && k.lost == Losses(calls)
  {
    k := Kernel(multiset{}, map[], map[], map[], 0);
    for i := 0 to |calls|
      invariant k == Replay(calls[..i])
    {
      assert calls[..i + 1][..i] == calls[..i];
      k := Perform(k, 2 * i, calls[i]);
    }
    assert calls[..|calls|] == calls;
  }
}
