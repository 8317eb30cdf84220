/**
 * ramfs_file_flush (fs/ramfs/inode.c): copies a ramfs file chunk by chunk to a temporary name in the
 * sync directory, syncs it and renames it over the target. The sync directory is a map from path to
 * content; every call that changes it adds the state a crash would leave to a trace.
 */
module RamfsFlush {

  type Byte = bv8
  type Files = map<string, seq<Byte>>

  const PATH_MAX := 4096
  /** The copy buffer: four pages. */
  const BUF_SIZE := 16384
  const EIO := 5
  const ENOMEM := 12

  // ------------------------------------------------------------------------------------------
  // Names.

  /** What snprintf leaves in a buffer of PATH_MAX bytes. */
  function Truncate(s: string): string {
    if |s| < PATH_MAX then s else s[..PATH_MAX - 1]
  }

  function Digits(n: nat, base: nat): (d: string)
    requires 2 <= base <= 16
    decreases n
  {
    (if n < base then "" else Digits(n / base, base)) + ["0123456789abcdef"[n % base]]
  }

  /** The part of the temporary name behind the file name: two hexadecimal stamps and the pid. */
  function Tail(seconds: nat, nanos: nat, pid: nat): (t: string)
    ensures 0 < |t|
  {
    "." + Digits(seconds, 16) + "." + Digits(nanos, 16) + "." + Digits(pid, 10) + ".tmp"
  }

  function TmpPath(dir: string, name: string, tail: string): string {
    Truncate(dir + "/." + name + tail)
  }

  function FinalPath(dir: string, name: string): string {
    Truncate(dir + "/" + name)
  }

  /** How many bytes of the name fit behind the directory and its slash. */
  function Room(dir: string): int {
    PATH_MAX - 2 - |dir|
  }

  predicate AllDots(s: string) {
    forall i | 0 <= i < |s| :: s[i] == '.'
  }

  /** The target is cut off inside its name, and what is left of the name is dots only. */
  predicate CutToDots(dir: string, name: string) {
    Room(dir) <= |name| && (0 < Room(dir) ==> AllDots(name[..Room(dir)]))
  }

  /** The temporary name is the target exactly when the target name is cut down to dots. */
  lemma NamesCollide(dir: string, name: string, tail: string)
    requires 0 < |tail|
    ensures TmpPath(dir, name, tail) == FinalPath(dir, name) <==> CutToDots(dir, name)
  {
    var room, n := Room(dir), PATH_MAX - 1;
    var t, f := dir + "/." + name + tail, dir + "/" + name;
    if room <= 0 {
      assert t[..n] == (dir + "/")[..n] == f[..n];
    } else if |name| < room {
      assert |TmpPath(dir, name, tail)| > |FinalPath(dir, name)|;
    } else {
      var kept := name[..room];
      assert f[..n] == dir + "/" + kept;
      assert t[..n] == dir + "/" + ("." + name[..room - 1]);
      if t[..n] == f[..n] {
        assert kept == f[..n][|dir| + 1..] == t[..n][|dir| + 1..] == "." + name[..room - 1];
        ShiftedDots(kept);
      }
      if AllDots(kept) {
        assert "." + name[..room - 1] == kept;
      }
    }
  }

  lemma {:induction false} ShiftedDots(s: string)
    requires s != [] && s == "." + s[..|s| - 1]
    ensures AllDots(s)
  {
    if |s| > 1 {
      var r := s[..|s| - 1];
      assert s[|s| - 1] == r[|s| - 2];
      assert r == "." + r[..|r| - 1];
      ShiftedDots(r);
    }
  }

  /** strrchr and the step over the slash: the part behind the last slash, or everything. */
  function Basename(path: string): string {
    if path == [] || path[|path| - 1] == '/' then [] else Basename(path[..|path| - 1]) + [path[|path| - 1]]
  }

  lemma {:induction false} BasenameOf(dir: string, name: string)
    requires '/' !in name
    ensures Basename(dir + "/" + name) == name
  {
    if name == [] {
      assert dir + "/" + name == dir + "/";
    } else {
      var n := |name| - 1;
      assert (dir + "/" + name)[..|dir| + 1 + n] == dir + "/" + name[..n];
      BasenameOf(dir, name[..n]);
    }
  }

  // ------------------------------------------------------------------------------------------
  // What the outside decides.

  /**
   * `read(pos)` and `write(pos, n)` are the answers of kernel_read and kernel_write at a position; the
   * flags say which of the other calls succeed.
   */
  datatype Env = Env(
    bind: bool, alloc: bool, openTmp: bool, pathBufs: bool, copyBuf: bool, read: nat -> int, write: (nat, nat) -> int,
    fsync: int, lookupTmp: bool, dupDir: bool, lookupDir: bool, touch: bool, lookupTarget: bool, getname: bool,
    rename: bool)

  /** kernel_read fails, or returns between one byte and a buffer full, and zero only at the end. */
  predicate ReadOk(src: seq<Byte>, pos: nat, n: int) {
    n < 0 || (pos <= |src| && n <= |src| - pos && n <= BUF_SIZE && (n == 0 <==> pos == |src|))
  }

  /** kernel_write fails or writes at most what it was given. */
  ghost predicate Sane(src: seq<Byte>, e: Env) {
    && (forall pos: nat | pos <= |src| :: ReadOk(src, pos, e.read(pos)))
    && (forall pos: nat, n: nat :: e.write(pos, n) <= n)
    && e.fsync <= 0
  }

  /** Every read from `pos` on succeeds and is written in full, up to the end of the source. */
  ghost predicate CopiesFrom(src: seq<Byte>, pos: nat, e: Env)
    requires pos <= |src| && Sane(src, e)
    decreases |src| - pos
  {
    assert ReadOk(src, pos, e.read(pos));
    var n := e.read(pos);
    n == 0 || (n > 0 && e.write(pos, n) == n && CopiesFrom(src, pos + n, e))
  }

  /** Nothing fails in copy_file_content. */
  ghost predicate Copies(src: seq<Byte>, e: Env)
    requires Sane(src, e)
  {
    e.pathBufs && e.copyBuf && CopiesFrom(src, 0, e) && e.fsync == 0
  }

  /** Nothing fails in ramfs_file_flush; touching the target may. */
  ghost predicate Flushes(src: seq<Byte>, e: Env)
    requires Sane(src, e)
  {
    && e.bind && e.alloc && e.openTmp && Copies(src, e)
    && e.lookupTmp && e.dupDir && e.lookupDir && e.lookupTarget && e.getname && e.rename
  }

  function Last(trace: seq<Files>): Files
    requires trace != []
  {
    trace[|trace| - 1]
  }

  /** Every state of the trace differs from the first in the content of `path` only. */
  ghost predicate Only(path: string, before: Files, trace: seq<Files>) {
    forall i | 0 <= i < |trace| :: path in trace[i] && trace[i] - {path} == before - {path}
  }

  /** copy_file_content onto the open file `dst`. */
  method CopyFileContent(src: seq<Byte>, dst: string, before: Files, e: Env) returns (ret: int, trace: seq<Files>)
    requires Sane(src, e) && dst in before && before[dst] == []
    ensures trace != [] && trace[0] == before && Only(dst, before, trace)
    ensures ret <= 0
    ensures ret == 0 <==> Copies(src, e)
    ensures ret == 0 ==> Last(trace)[dst] == src
  {
    ret, trace := 0, [before];
    if !e.pathBufs || !e.copyBuf {
      return -ENOMEM, trace;
    }
    var pos: nat := 0;
    while true
      invariant pos <= |src| && trace != [] && trace[0] == before && Only(dst, before, trace)
      invariant Last(trace)[dst] == src[..pos] && ret == 0
      invariant CopiesFrom(src, pos, e) == CopiesFrom(src, 0, e)
      decreases |src| - pos
    {
      var bytesRead := e.read(pos);
      if bytesRead <= 0 {
        if bytesRead < 0 {
          ret := bytesRead;
        }
        break;
      }
      var bytesWritten := e.write(pos, bytesRead);
      var kept := if bytesWritten < 0 then 0 else bytesWritten;
      trace := trace + [Last(trace)[dst := src[..pos] + src[pos..pos + kept]]];
      if bytesWritten < bytesRead {
        ret := if bytesWritten < 0 then bytesWritten else -EIO;
        break;
      }
      pos := pos + bytesRead;
    }
    if ret == 0 {
      ret := e.fsync;
    }
  }

  // ------------------------------------------------------------------------------------------
  // The flush.

  /** What a crash may leave at the target: the old content, an empty file if there was none, or the source. */
  predicate TargetOk(target: string, before: Files, src: seq<Byte>, now: Files) {
    if target in before then target in now && (now[target] == before[target] || now[target] == src)
    else target in now ==> now[target] == [] || now[target] == src
  }

  /** A change at one path leaves the others alone. */
  lemma Elsewhere(before: Files, now: Files, tmp: string, target: string)
    requires now - {tmp} == before - {tmp}
    ensures now - {target, tmp} == before - {target, tmp}
    ensures tmp != target ==> (target in now <==> target in before)
    ensures tmp != target && target in before ==> target in now && now[target] == before[target]
  {
    assert now - {target, tmp} == (now - {tmp}) - {target};
    assert before - {target, tmp} == (before - {tmp}) - {target};
    if tmp != target {
      assert target in now <==> target in now - {tmp};
      assert target in before <==> target in before - {tmp};
    }
  }

  /** ramfs_file_flush of a file with path `dpath`, at the given time in the given process. */
  method FileFlush(src: seq<Byte>, dir: string, dpath: string, seconds: nat, nanos: nat, pid: nat, before: Files, e: Env)
    returns (ret: int, trace: seq<Files>)
    requires Sane(src, e)
    ensures trace != [] && trace[0] == before
    // no crash point shows anything but the old content, the whole source, or a fresh empty file
    ensures !CutToDots(dir, Basename(dpath)) ==>
              forall i | 0 <= i < |trace| :: TargetOk(FinalPath(dir, Basename(dpath)), before, src, trace[i])
    // the flush succeeds exactly when nothing fails
    ensures ret <= 0 && (ret == 0 <==> Flushes(src, e))
    // success puts the source at the target
    ensures ret == 0 ==> var f := FinalPath(dir, Basename(dpath)); f in Last(trace) && Last(trace)[f] == src
    // and leaves no temporary file
    ensures ret == 0 && !CutToDots(dir, Basename(dpath)) ==>
              TmpPath(dir, Basename(dpath), Tail(seconds, nanos, pid)) !in Last(trace)
    // nothing else in the directory changes, save the temporary file
    ensures forall i | 0 <= i < |trace| ::
              var skip := {FinalPath(dir, Basename(dpath)), TmpPath(dir, Basename(dpath), Tail(seconds, nanos, pid))};
              trace[i] - skip == before - skip
    // when the two names coincide, the target is emptied on the way
    ensures CutToDots(dir, Basename(dpath)) && e.bind && e.alloc && e.openTmp ==>
              1 < |trace| && trace[1] == before[FinalPath(dir, Basename(dpath)) := []]
    ensures var f := FinalPath(dir, Basename(dpath));
              CutToDots(dir, Basename(dpath)) && e.bind && e.alloc && e.openTmp && f in before && before[f] != [] && src != []
              ==> !TargetOk(f, before, src, trace[1])
  {
    var tail := Tail(seconds, nanos, pid);
    trace := [before];
    if !e.bind {
      return -22, trace;
    }
    var name := Basename(dpath);
    if !e.alloc {
      return -ENOMEM, trace;
    }
    var tmp, target := TmpPath(dir, name, tail), FinalPath(dir, name);
    NamesCollide(dir, name, tail);
    if !e.openTmp {
      return -EIO, trace;
    }
    var emptied := before[tmp := []];
    var copied;
    ret, copied := CopyFileContent(src, tmp, emptied, e);
    trace := trace + copied;
    forall i | 0 <= i < |trace|
      ensures trace[i] - {target, tmp} == before - {target, tmp}
      ensures tmp != target ==> TargetOk(target, before, src, trace[i])
    {
      assert i > 0 ==> trace[i] == copied[i - 1];
      Elsewhere(before, trace[i], tmp, target);
    }
    if ret != 0 {
      return;
    }
    if !e.lookupTmp || !e.dupDir || !e.lookupDir {
      return -ENOMEM, trace;
    }
    if e.touch && target !in Last(trace) {
      trace := trace + [Last(trace)[target := []]];
    }
    if !e.lookupTarget || !e.getname || !e.rename {
      return -ENOMEM, trace;
    }
    if tmp != target {
      trace := trace + [(Last(trace) - {tmp})[target := Last(trace)[tmp]]];
    }
  }

  /** A directory path and a name for which the temporary file is the target. */
  lemma CollisionExample(dir: string, tail: string)
    requires |dir| == 4091 && 0 < |tail|
    ensures CutToDots(dir, "...x")
    ensures TmpPath(dir, "...x", tail) == FinalPath(dir, "...x") == dir + "/..."
  {
    assert "...x"[..3] == "...";
    NamesCollide(dir, "...x", tail);
    assert (dir + "/" + "...x")[..PATH_MAX - 1] == dir + "/" + "...";
  }

  /** A flush in which nothing fails, of one byte over one byte, that shows an empty target on the way. */
  method CollisionDamages(dir: string, seconds: nat, nanos: nat, pid: nat) returns (ret: int, trace: seq<Files>)
    requires |dir| == 4091
    ensures ret == 0 && 1 < |trace|
    ensures trace[0] == map[dir + "/..." := [1]]
    ensures dir + "/..." in Last(trace) && Last(trace)[dir + "/..."] == [2]
    ensures !TargetOk(dir + "/...", trace[0], [2], trace[1])
  {
    var e := Env(true, true, true, true, true, pos => if pos == 0 then 1 else 0, (pos, n) => n,
                 0, true, true, true, true, true, true, true);
    CollisionExample(dir, Tail(seconds, nanos, pid));
    BasenameOf("", "...x");
    assert "" + "/" + "...x" == "/...x";
    assert CopiesFrom([2], 1, e);
    ret, trace := FileFlush([2], dir, "/...x", seconds, nanos, pid, map[dir + "/..." := [1]], e);
  }
}
