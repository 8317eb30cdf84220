/**
 * GPTfs (fuse/gptfs.py): sessions as directories with the files input, output and error. Four
 * collections describe the tree; together they must stand for one map from session names to contents.
 * Paths are given by their names; GptPaths connects them with the strings.
 */
module GptFs {

  import opened GptPaths
  import opened Wrappers

  type Bytes = seq<bv8>

  /** A normalised path: the root, a session directory, an entry of one, or something deeper. */
  datatype Path = Root | Top(name: Name) | Sub(name: Name, file: Name) | Deeper(names: seq<Name>) {
    /** Its names; a deeper path has at least three. */
    function Names(): seq<Name> {
      match this
      case Root => []
      case Top(n) => [n]
      case Sub(n, f) => [n, f]
      case Deeper(names) => names
    }
  }

  datatype Errno = ENOENT | EPERM | KeyError
  /** The tests of the operations on a path's string are tests of its shape, and different paths have different strings. */
  lemma PathMeaning(p: Path, q: Path)
    requires (p.Deeper? ==> |p.names| > 2) && (q.Deeper? ==> |q.names| > 2)
    ensures FullPath(Join(p.Names())) == Join(p.Names())
    ensures IsSessionDir(Join(p.Names())) <==> p.Top?
    ensures IsSpecialFile(Join(p.Names())) <==> p.Sub? && p.file in SPECIAL
    ensures p.Sub? ==> (EndsWith(Join(p.Names()), "/input") <==> p.file == INPUT)
    ensures p.Sub? ==> GetSessionDir(Join(p.Names())) == Join(Top(p.name).Names())
    ensures p.Top? ==> forall f: Name :: OsJoin(Join(p.Names()), f) == Join(Sub(p.name, f).Names())
    ensures Join(p.Names()) == Join(q.Names()) ==> p == q
  {
    PathTests(p.Names());
    if p.Top? {
      assert forall f: Name :: p.Names() + [f] == Sub(p.name, f).Names();
    }
    if Join(p.Names()) == Join(q.Names()) {
      JoinInjective(p.Names(), q.Names());
      assert p.Top? ==> p.name == q.Names()[0];
      assert p.Sub? ==> p.name == q.Names()[0] && p.file == q.Names()[1];
    }
  }

  /** The attributes that the operations use: st_size, which the root does not have. */
  datatype Attr = RootDir | Attr(size: nat)

  /** What a session holds; its error file stays empty as long as the API call does not raise. */
  datatype Session = Session(input: Bytes, output: Bytes) {
    function Content(name: Name): Bytes {
      if name == INPUT then input else if name == OUTPUT then output else []
    }

    /** With one file cut to a length. */
    function Cut(name: Name, length: nat): Session
      requires length <= |Content(name)|
    {
      if name == INPUT then Session(input[..length], output)
      else if name == OUTPUT then Session(input, output[..length]) else this
    }
  }

  /** The paths that exist in a file system with these sessions. */
  predicate Exists(sessions: map<Name, Session>, p: Path) {
    match p
    case Root => true
    case Top(n) => n in sessions
    case Sub(n, f) => n in sessions && f in SPECIAL
    case Deeper(_) => false
  }

  /** What a write at an offset makes of the content: at 0 it replaces all, else it pads with zeros and cuts there. */
  function WriteAt(d: Bytes, offset: nat, chunk: Bytes): (r: Bytes)
    ensures |r| == offset + |chunk|
  {
    if offset == 0 then chunk else Padded(d, offset)[..offset] + chunk
  }

  function Padded(d: Bytes, offset: nat): (r: Bytes)
    ensures |r| >= offset
  {
    if offset > |d| then d + seq(offset - |d|, _ => 0) else d
  }

  /** Byte by byte. */
  lemma WriteAtBytes(d: Bytes, offset: nat, chunk: Bytes, i: nat)
    requires i < offset + |chunk|
    ensures WriteAt(d, offset, chunk)[i] == if i >= offset then chunk[i - offset] else if i < |d| then d[i] else 0
  {
  }

  lemma WriteAtEnd(d: Bytes, chunk: Bytes)
    ensures WriteAt(d, |d|, chunk) == d + chunk
  {
    if d == [] {
      assert d + chunk == chunk;
    } else {
      assert d[..|d|] == d;
    }
  }

  function Concat(chunks: seq<Bytes>): Bytes {
    if chunks == [] then [] else Concat(chunks[..|chunks| - 1]) + chunks[|chunks| - 1]
  }

  /** Python's d[offset:offset + size]. */
  function Slice(d: Bytes, size: nat, offset: nat): (r: Bytes)
    ensures |r| <= size
    ensures forall i | 0 <= i < |r| :: offset + i < |d| && r[i] == d[offset + i]
    ensures |r| == size || offset + |r| >= |d|
  {
    if offset >= |d| then [] else if offset + size > |d| then d[offset..] else d[offset..offset + size]
  }

  /** Reading on where the last read ended gives what one longer read would have given. */
  lemma SlicesJoin(d: Bytes, a: nat, b: nat, offset: nat)
    ensures Slice(d, a, offset) + Slice(d, b, offset + a) == Slice(d, a + b, offset)
  {
    if offset + a <= |d| {
      var end := if offset + a + b > |d| then |d| else offset + a + b;
      assert d[offset..offset + a] + d[offset + a..end] == d[offset..end];
      assert d[offset..|d|] == d[offset..] && d[offset + a..|d|] == d[offset + a..];
    }
  }

  /** `files` lists what exists, each file with the length of its content. */
  ghost predicate FilesAgree(files: map<Path, Attr>, sessions: map<Name, Session>) {
    && (forall p: Path {:trigger p in files} :: p in files <==> Exists(sessions, p))
    && (forall p <- files :: files[p] ==
          match p case Root => RootDir case Top(_) => Attr(0) case Sub(n, f) => Attr(|sessions[n].Content(f)|) case Deeper(_) => RootDir)
  }

  /** `data` has the content of every file. */
  ghost predicate DataAgrees(data: map<Path, Bytes>, sessions: map<Name, Session>) {
    && (forall p: Path {:trigger p in data} :: p in data <==> p.Sub? && Exists(sessions, p))
    && (forall p <- data :: data[p] == sessions[p.name].Content(p.file))
  }

  /** `directories` and `dirFiles` have the sessions, each with its three files. */
  ghost predicate DirsAgree(directories: set<Path>, dirFiles: map<Path, set<Name>>, sessions: map<Name, Session>) {
    && (forall p: Path {:trigger p in directories} :: p in directories <==> p.Root? || (p.Top? && p.name in sessions))
    && (forall p: Path {:trigger p in dirFiles} :: p in dirFiles <==> p.Top? && p.name in sessions)
    && (forall p <- dirFiles :: dirFiles[p] == SPECIAL)
  }

  class GPTfs {
    var files: map<Path, Attr>
    var data: map<Path, Bytes>
    var directories: set<Path>
    var dirFiles: map<Path, set<Name>>
    ghost var sessions: map<Name, Session>

    /** The four collections stand for these sessions. */
    ghost predicate Agrees(ss: map<Name, Session>)
      reads this
    {
      FilesAgree(files, ss) && DataAgrees(data, ss) && DirsAgree(directories, dirFiles, ss)
    }

    /** There are sessions that the four collections stand for. */
    ghost predicate Consistent()
      reads this
    {
      exists ss: map<Name, Session> :: Agrees(ss)
    }

    ghost predicate Valid()
      reads this
    {
      Agrees(sessions)
    }

    constructor ()
      ensures Valid() && sessions == map[]
    {
      files := map[Root := RootDir];
      data := map[];
      directories := {Root};
      dirFiles := map[];
      sessions := map[];
    }

    /** mkdir, also of a session that is there, which it empties. */
    method Mkdir(path: Path) returns (r: Result<(), Errno>)
      requires Valid()
      modifies this
      ensures Valid()
      ensures r == if path.Top? then Ok(()) else Err(EPERM)
      ensures sessions == if path.Top? then old(sessions)[path.name := Session([], [])] else old(sessions)
    {
      if !path.Top? {
        return Err(EPERM);
      }
      var n := path.name;
      ghost var empty := sessions[n := Session([], [])];
      files := files[path := Attr(0)];
      directories := directories + {path};
      var listed := if path in dirFiles then dirFiles[path] else {};
      var fs, ds;
      fs, ds, listed := MakeFiles(files, data, listed, n);
      MadeFilesAgree(old(files), fs, sessions, n);
      MadeDataAgrees(data, ds, sessions, n);
      MadeDirAgrees(old(directories), dirFiles, sessions, n);
      assert listed == SPECIAL;
      files, data := fs, ds;
      dirFiles := dirFiles[path := listed];
      sessions := empty;
      return Ok(());
    }

    /** rmdir: nothing of the session is left, and nothing else is touched. */
    method Rmdir(path: Path) returns (r: Result<(), Errno>)
      requires Valid()
      modifies this
      ensures Valid()
      ensures r == if !path.Top? then Err(EPERM) else if path.name in old(sessions) then Ok(()) else Err(KeyError)
      ensures sessions == if path.Top? then old(sessions) - {path.name} else old(sessions)
    {
      if !path.Top? {
        return Err(EPERM);
      }
      var n := path.name;
      var listed := if path in dirFiles then dirFiles[path] else {};
      if path !in directories {
        assert sessions - {n} == sessions;
        return Err(KeyError);                // from directories.remove, with nothing listed to delete
      }
      var fs, ds := DeleteFiles(files, data, listed, n);
      RemovedFilesAgree(files, fs, sessions, n);
      RemovedDataAgrees(data, ds, sessions, n);
      RemovedDirAgrees(directories, dirFiles, sessions, n);
      files, data := fs - {path}, ds;
      directories := directories - {path};
      dirFiles := dirFiles - {path};
      sessions := sessions - {n};
      return Ok(());
    }

    /**
     * getattr, which adds a missing file of a session. In a file system that agrees it changes nothing
     * and accepts what exists.
     */
    method GetAttr(path: Path) returns (r: Result<Attr, Errno>)
      modifies this`files, this`dirFiles
      ensures old(Valid()) ==> Valid() && files == old(files) && dirFiles == old(dirFiles)
      ensures old(Valid()) ==> r == if Exists(sessions, path) then Ok(files[path]) else Err(ENOENT)
      ensures old(Valid()) && path.Sub? && r.Ok? ==> r.value == Attr(|sessions[path.name].Content(path.file)|)
    {
      if path in files {
        return Ok(files[path]);
      }
      if path.Sub? && path.file in SPECIAL {
        var dir := Top(path.name);
        if dir in files {
          var attr := Attr(if path in data then |data[path]| else 0);
          files := files[path := attr];
          dirFiles := dirFiles[dir := (if dir in dirFiles then dirFiles[dir] else {}) + {path.file}];
          return Ok(attr);
        }
      }
      return Err(ENOENT);
    }

    /** readdir: besides the dots, exactly the names under which getattr finds something. */
    method Readdir(path: Path) returns (entries: set<string>)
      requires Valid()
      ensures "." in entries && ".." in entries
      ensures forall name: Name :: name in entries <==> Exists(sessions, Below(path, name))
      ensures forall e <- entries :: e == "." || e == ".." || Entry(e)
    {
      entries := {".", ".."};
      if path.Root? {
        entries := entries + set d <- directories | d.Top? :: d.name;
      } else if path in directories {
        entries := entries + if path in dirFiles then set f <- dirFiles[path] :: f else {};
      }
    }

    method Read(path: Path, size: nat, offset: nat) returns (r: Result<Bytes, Errno>)
      requires Valid()
      ensures path.Sub? && Exists(sessions, path) ==> r == Ok(Slice(sessions[path.name].Content(path.file), size, offset))
      ensures !path.Sub? && Exists(sessions, path) ==> r == Err(EPERM)
      ensures !Exists(sessions, path) ==> r == Err(ENOENT)
    {
      if path !in files {
        return Err(ENOENT);
      }
      if path.Sub? && path.file in SPECIAL {
        return Ok(Slice(if path in data then data[path] else [], size, offset));
      }
      return Err(EPERM);
    }

    /**
     * write, to a path that is no directory, as the kernel makes sure. `reply` is what the API answers this time.
     * The content becomes the written input, the reply and an empty error.
     */
    method Write(path: Path, chunk: Bytes, offset: nat, reply: Bytes) returns (r: Result<nat, Errno>)
      requires Valid() && path !in directories
      modifies this
      ensures Valid()
      ensures r.Ok? <==> path.Sub? && path.name in old(sessions) && path.file == INPUT
      ensures r.Err? ==> sessions == old(sessions) && r.error == if Exists(old(sessions), path) then EPERM else ENOENT
      ensures r.Ok? ==>
        var input := WriteAt(old(sessions)[path.name].input, offset, chunk);
        r.value == |chunk| && sessions == old(sessions)[path.name := Session(input, reply)]
    {
      if path !in files {
        return Err(ENOENT);
      }
      if path.file != INPUT {
        return Err(EPERM);
      }
      var fs, ds, input := WriteMaps(files, data, sessions, path.name, chunk, offset, reply);
      DirsStayAgreed(directories, dirFiles, sessions, path.name, Session(input, reply));
      files, data := fs, ds;
      sessions := sessions[path.name := Session(input, reply)];
      return Ok(|chunk|);
    }

    /**
     * truncate. The collections still agree, on any sessions at all, exactly when the length is not beyond
     * the content of a file that exists: otherwise st_size says more than there is, or an entry is left in
     * `data` alone.
     */
    method Truncate(path: Path, length: nat) returns (r: Result<(), Errno>)
      requires Valid()
      modifies this
      ensures r == if !(path.Sub? && path.file in SPECIAL) then Err(EPERM)
                   else if path.name in old(sessions) then Ok(()) else Err(KeyError)
      ensures r == Err(EPERM) ==> Valid() && sessions == old(sessions)
      ensures r == Err(KeyError) ==> !Consistent() && sessions == old(sessions)
      ensures r == Err(KeyError) ==> files == old(files) && data == old(data)[path := []]
      ensures r.Ok? ==> (Consistent() <==> length <= |old(sessions)[path.name].Content(path.file)|)
      ensures r.Ok? && Consistent() ==>
        Valid() && sessions == old(sessions)[path.name := old(sessions)[path.name].Cut(path.file, length)]
      ensures r.Ok? && !Consistent() ==>
        sessions == old(sessions) && files == old(files)[path := Attr(length)] && data == old(data)
      ensures directories == old(directories) && dirFiles == old(dirFiles)
    {
      if !path.Sub? || path.file !in SPECIAL {
        return Err(EPERM);
      }
      var fs, ds, ok := TruncateMaps(files, data, sessions, path, length);
      files, data := fs, ds;
      if !ok {
        NeverAgree(path);
        return Err(KeyError);
      }
      if length <= |sessions[path.name].Content(path.file)| {
        DirsStayAgreed(directories, dirFiles, sessions, path.name, sessions[path.name].Cut(path.file, length));
        sessions := sessions[path.name := sessions[path.name].Cut(path.file, length)];
        assert Agrees(sessions);
      } else {
        NeverAgree(path);
      }
      return Ok(());
    }

    /** A file with content but no attributes, or with a size that is not the length of its content, fits no sessions. */
    lemma NeverAgree(p: Path)
      requires p.Sub? && p in data && (p in files ==> files[p] != Attr(|data[p]|))
      ensures !Consistent()
    {
      forall ss: map<Name, Session> ensures !Agrees(ss) {
        Disagree(files, data, p, ss);
      }
    }
  }

  lemma Disagree(files: map<Path, Attr>, data: map<Path, Bytes>, p: Path, sessions: map<Name, Session>)
    requires p.Sub? && p in data && (p in files ==> files[p] != Attr(|data[p]|))
    ensures !(FilesAgree(files, sessions) && DataAgrees(data, sessions))
  {
  }

  /** What write does to `data` and `files`. */
  method WriteMaps(files0: map<Path, Attr>, data0: map<Path, Bytes>, ghost sessions: map<Name, Session>, n: Name,
                   chunk: Bytes, offset: nat, reply: Bytes)
    returns (files: map<Path, Attr>, data: map<Path, Bytes>, input: Bytes)
    requires FilesAgree(files0, sessions) && DataAgrees(data0, sessions) && n in sessions
    ensures input == WriteAt(sessions[n].input, offset, chunk)
    ensures FilesAgree(files, sessions[n := Session(input, reply)])
    ensures DataAgrees(data, sessions[n := Session(input, reply)])
  {
    var path := Sub(n, INPUT);
    files, data := files0, data0;
    if offset == 0 {
      input := chunk;
    } else {
      input := data[path];
      if offset > |input| {
        input := input + seq(offset - |input|, _ => 0);
      }
      assert input == Padded(sessions[n].input, offset);
      input := input[..offset] + chunk;
    }
    data := data[path := input];
    var newSize := if offset + |chunk| > |data[path]| then offset + |chunk| else |data[path]|;
    files := files[path := Attr(newSize)];
    data := data[Sub(n, OUTPUT) := []];
    data := data[Sub(n, ERROR) := []];
    data := data[Sub(n, OUTPUT) := reply];
    files := files[Sub(n, OUTPUT) := Attr(|reply|)];
    WrittenFilesAgree(files0, sessions, n, input, reply);
    WrittenDataAgrees(data0, sessions, n, input, reply);
  }

  /** What truncate does to `data` and then to `files`, where it raises if the path is not there. */
  method TruncateMaps(files0: map<Path, Attr>, data0: map<Path, Bytes>, ghost sessions: map<Name, Session>, path: Path,
                      length: nat)
    returns (files: map<Path, Attr>, data: map<Path, Bytes>, ok: bool)
    requires FilesAgree(files0, sessions) && DataAgrees(data0, sessions) && path.Sub? && path.file in SPECIAL
    ensures ok <==> path.name in sessions
    ensures !ok ==> files == files0 && path !in files && data == data0[path := []]
    ensures ok && length <= |sessions[path.name].Content(path.file)| ==>
      var cut := sessions[path.name := sessions[path.name].Cut(path.file, length)];
      FilesAgree(files, cut) && DataAgrees(data, cut)
    ensures ok && length > |sessions[path.name].Content(path.file)| ==>
      files == files0[path := Attr(length)] && data == data0 && path in data && |data[path]| < length
  {
    files, data, ok := files0, data0, path in files0;
    if path in data {
      var d := data[path];
      data := data[path := if length <= |d| then d[..length] else d];
    } else {
      data := data[path := []];
    }
    if !ok {
      return;
    }
    files := files[path := Attr(length)];
    if length <= |sessions[path.name].Content(path.file)| {
      CutAgrees(files0, data0, sessions, path.name, path.file, length);
    } else {
      assert data == data0;
    }
  }

  lemma DirsStayAgreed(directories: set<Path>, dirFiles: map<Path, set<Name>>, sessions: map<Name, Session>, n: Name, s: Session)
    requires DirsAgree(directories, dirFiles, sessions) && n in sessions
    ensures DirsAgree(directories, dirFiles, sessions[n := s])
  {
  }

  lemma CutAgrees(files: map<Path, Attr>, data: map<Path, Bytes>, sessions: map<Name, Session>, n: Name, f: Name, length: nat)
    requires FilesAgree(files, sessions) && DataAgrees(data, sessions) && n in sessions && f in SPECIAL
    requires length <= |sessions[n].Content(f)|
    ensures FilesAgree(files[Sub(n, f) := Attr(length)], sessions[n := sessions[n].Cut(f, length)])
    ensures DataAgrees(data[Sub(n, f) := sessions[n].Content(f)[..length]], sessions[n := sessions[n].Cut(f, length)])
  {
    var cut := sessions[n].Cut(f, length);
    assert cut.Content(f) == sessions[n].Content(f)[..length];
    assert forall g: Name :: g != f ==> cut.Content(g) == sessions[n].Content(g);
  }

  /** The next chunk, at the offset where the chunks before it end. */
  method WriteNext(fs: GPTfs, n: Name, ghost done: seq<Bytes>, chunk: Bytes, offset: nat, reply: Bytes)
    requires fs.Valid() && n in fs.sessions && offset == |Concat(done)|
    requires done != [] ==> fs.sessions[n].input == Concat(done)
    modifies fs
    ensures fs.Valid()
    ensures var all := Concat(done + [chunk]);
      |all| == offset + |chunk| && fs.sessions == old(fs.sessions)[n := Session(all, reply)]
  {
    WriteAfter(fs.sessions[n].input, done, chunk);
    var r := fs.Write(Sub(n, INPUT), chunk, offset, reply);
  }

  /**
   * Writing an input in consecutive chunks from offset 0, over whatever it held, with any replies: it is
   * then their concatenation, and the output is the last reply.
   */
  method WriteChunks(fs: GPTfs, n: Name, chunks: seq<Bytes>, replies: seq<Bytes>)
    requires fs.Valid() && n in fs.sessions && chunks != [] && |replies| == |chunks|
    modifies fs
    ensures fs.Valid()
    ensures fs.sessions == old(fs.sessions)[n := Session(Concat(chunks), replies[|replies| - 1])]
  {
    var offset := 0;
    ghost var done: seq<Bytes> := [];
    for i := 0 to |chunks|
      invariant fs.Valid() && done == chunks[..i] && offset == |Concat(done)|
      invariant fs.sessions ==
        if i == 0 then old(fs.sessions) else old(fs.sessions)[n := Session(Concat(done), replies[i - 1])]
    {
      WriteNext(fs, n, done, chunks[i], offset, replies[i]);
      offset := offset + |chunks[i]|;
      done := done + [chunks[i]];
      assert fs.sessions == old(fs.sessions)[n := Session(Concat(done), replies[i])];
    }
    assert done == chunks;
  }

  function Total(sizes: seq<nat>): nat {
    if sizes == [] then 0 else Total(sizes[..|sizes| - 1]) + sizes[|sizes| - 1]
  }

  /** Reading a file from the start by any row of sizes: what one read of their total gives, and all of it once they cover it. */
  method ReadSlices(fs: GPTfs, path: Path, sizes: seq<nat>) returns (got: Bytes)
    requires fs.Valid() && path.Sub? && Exists(fs.sessions, path)
    ensures var d := fs.sessions[path.name].Content(path.file);
      got == Slice(d, Total(sizes), 0) && (|d| <= Total(sizes) ==> got == d)
  {
    got := [];
    var offset := 0;
    ghost var d := fs.sessions[path.name].Content(path.file);
    for i := 0 to |sizes|
      invariant offset == Total(sizes[..i]) && got == Slice(d, offset, 0)
    {
      var r := fs.Read(path, sizes[i], offset);
      SlicesJoin(d, offset, sizes[i], 0);
      assert sizes[..i + 1][..i] == sizes[..i];
      got := got + r.value;
      offset := offset + sizes[i];
    }
    assert sizes[..|sizes|] == sizes;
    assert |d| <= Total(sizes) ==> Slice(d, Total(sizes), 0) == d;
  }

  /** An input written in any chunks reads back exactly, by any row of sizes. */
  method WriteThenRead(fs: GPTfs, n: Name, chunks: seq<Bytes>, replies: seq<Bytes>, sizes: seq<nat>) returns (got: Bytes)
    requires fs.Valid() && n in fs.sessions && chunks != [] && |replies| == |chunks|
    modifies fs
    ensures got == Slice(Concat(chunks), Total(sizes), 0)
    ensures |Concat(chunks)| <= Total(sizes) ==> got == Concat(chunks)
  {
    WriteChunks(fs, n, chunks, replies);
    got := ReadSlices(fs, Sub(n, INPUT), sizes);
  }

  lemma ConcatMore(done: seq<Bytes>, chunk: Bytes)
    ensures Concat(done + [chunk]) == Concat(done) + chunk
  {
    assert (done + [chunk])[..|done|] == done;
  }

  lemma WriteAfter(input: Bytes, done: seq<Bytes>, chunk: Bytes)
    requires done != [] ==> input == Concat(done)
    ensures WriteAt(input, |Concat(done)|, chunk) == Concat(done + [chunk])
    ensures |Concat(done + [chunk])| == |Concat(done)| + |chunk|
  {
    ConcatMore(done, chunk);
    if done == [] {
      assert Concat(done) + chunk == chunk;
    } else {
      WriteAtEnd(input, chunk);
    }
  }

  predicate Entry(s: string) {
    s != "" && '/' !in s && s != "." && s != ".."
  }

  /** The path of an entry of a directory. */
  function Below(p: Path, name: Name): (q: Path)
    ensures q.Names() == p.Names() + [name]
  {
    match p
    case Root => Top(name)
    case Top(n) => Sub(n, name)
    case Sub(n, f) => Deeper([n, f, name])
    case Deeper(names) => Deeper(names + [name])
  }

  /** `now` is `before` without the given files of session `n`. */
  ghost predicate Removed<T>(before: map<Path, T>, now: map<Path, T>, n: Name, gone: set<Name>) {
    && (forall p: Path {:trigger p in now} :: p in now <==> p in before && !(p.Sub? && p.name == n && p.file in gone))
    && (forall p <- now :: now[p] == before[p])
  }

  /** The loop of rmdir over the files that are listed, in any order. */
  method DeleteFiles(files0: map<Path, Attr>, data0: map<Path, Bytes>, listed: set<Name>, n: Name)
    returns (files: map<Path, Attr>, data: map<Path, Bytes>)
    ensures Removed(files0, files, n, listed) && Removed(data0, data, n, listed)
  {
    files, data := files0, data0;
    var todo, gone := listed, {};
    while todo != {}
      invariant todo + gone == listed
      invariant Removed(files0, files, n, gone) && Removed(data0, data, n, gone)
      decreases todo
    {
      var name :| name in todo;
      var p := Sub(n, name);
      if p in files {
        files := files - {p};
      }
      if p in data {
        data := data - {p};
      }
      todo, gone := todo - {name}, gone + {name};
    }
  }

  lemma RemovedFilesAgree(before: map<Path, Attr>, now: map<Path, Attr>, sessions: map<Name, Session>, n: Name)
    requires FilesAgree(before, sessions) && Removed(before, now, n, SPECIAL)
    ensures FilesAgree(now - {Top(n)}, sessions - {n})
  {
  }

  lemma RemovedDataAgrees(before: map<Path, Bytes>, now: map<Path, Bytes>, sessions: map<Name, Session>, n: Name)
    requires DataAgrees(before, sessions) && Removed(before, now, n, SPECIAL)
    ensures DataAgrees(now, sessions - {n})
  {
  }

  lemma RemovedDirAgrees(directories: set<Path>, dirFiles: map<Path, set<Name>>, sessions: map<Name, Session>, n: Name)
    requires DirsAgree(directories, dirFiles, sessions)
    ensures DirsAgree(directories - {Top(n)}, dirFiles - {Top(n)}, sessions - {n})
  {
  }

  lemma WrittenFilesAgree(files: map<Path, Attr>, sessions: map<Name, Session>, n: Name, input: Bytes, output: Bytes)
    requires FilesAgree(files, sessions) && n in sessions
    ensures FilesAgree(files[Sub(n, INPUT) := Attr(|input|)][Sub(n, OUTPUT) := Attr(|output|)],
                       sessions[n := Session(input, output)])
  {
  }

  lemma WrittenDataAgrees(data: map<Path, Bytes>, sessions: map<Name, Session>, n: Name, input: Bytes, output: Bytes)
    requires DataAgrees(data, sessions) && n in sessions
    ensures DataAgrees(data[Sub(n, INPUT) := input][Sub(n, OUTPUT) := []][Sub(n, ERROR) := []][Sub(n, OUTPUT) := output],
                       sessions[n := Session(input, output)])
  {
  }

  /** The loop of mkdir over the three file names. */
  method MakeFiles(files0: map<Path, Attr>, data0: map<Path, Bytes>, listed0: set<Name>, n: Name)
    returns (files: map<Path, Attr>, data: map<Path, Bytes>, listed: set<Name>)
    ensures Reset(files0, files, n, SPECIAL, Attr(0)) && Reset(data0, data, n, SPECIAL, [])
    ensures listed == listed0 + SPECIAL
  {
    files, data, listed := files0, data0, listed0;
    var names := [INPUT, OUTPUT, ERROR];
    ghost var done: set<Name> := {};
    for i := 0 to 3
      invariant listed == listed0 + done && done == set j | 0 <= j < i :: names[j]
      invariant Reset(files0, files, n, done, Attr(0)) && Reset(data0, data, n, done, [])
    {
      ResetMore(files0, files, n, done, Attr(0), names[i]);
      ResetMore(data0, data, n, done, [], names[i]);
      files := files[Sub(n, names[i]) := Attr(0)];
      data := data[Sub(n, names[i]) := []];
      listed := listed + {names[i]};
      done := done + {names[i]};
    }
    assert names[0] in done && names[1] in done && names[2] in done;
    assert done == SPECIAL;
  }

  lemma ResetMore<T>(before: map<Path, T>, now: map<Path, T>, n: Name, done: set<Name>, value: T, name: Name)
    requires Reset(before, now, n, done, value)
    ensures Reset(before, now[Sub(n, name) := value], n, done + {name}, value)
  {
  }

  lemma MadeFilesAgree(before: map<Path, Attr>, now: map<Path, Attr>, sessions: map<Name, Session>, n: Name)
    requires FilesAgree(before, sessions) && Reset(before[Top(n) := Attr(0)], now, n, SPECIAL, Attr(0))
    ensures FilesAgree(now, sessions[n := Session([], [])])
  {
  }

  lemma MadeDataAgrees(before: map<Path, Bytes>, now: map<Path, Bytes>, sessions: map<Name, Session>, n: Name)
    requires DataAgrees(before, sessions) && Reset(before, now, n, SPECIAL, [])
    ensures DataAgrees(now, sessions[n := Session([], [])])
  {
  }

  lemma MadeDirAgrees(directories: set<Path>, dirFiles: map<Path, set<Name>>, sessions: map<Name, Session>, n: Name)
    requires DirsAgree(directories, dirFiles, sessions)
    ensures DirsAgree(directories + {Top(n)}, dirFiles[Top(n) := SPECIAL], sessions[n := Session([], [])])
  {
  }

  /** `now` is `before` with the given files of session `n` set to `value`. */
  ghost predicate Reset<T>(before: map<Path, T>, now: map<Path, T>, n: Name, done: set<Name>, value: T) {
    && (forall p: Path {:trigger p in now} :: p in now <==> p in before || (p.Sub? && p.name == n && p.file in done))
    && (forall p <- now :: now[p] == if p.Sub? && p.name == n && p.file in done then value else before[p])
  }

  // ------------------------------------------------------------------------------------------
  // Whole runs.

  datatype Op = OpMkdir(path: Path) | OpRmdir(path: Path) | OpGetAttr(path: Path)
    | OpWrite(path: Path, chunk: Bytes, offset: nat, reply: Bytes) | OpTruncate(path: Path, length: nat)

  type Sessions = map<Name, Session>

  /** The file cut by a truncate that does not grow it. */
  predicate Shrinks(sessions: Sessions, p: Path, length: nat) {
    p.Sub? && Exists(sessions, p) && length <= |sessions[p.name].Content(p.file)|
  }

  /** What an operation does to the sessions. */
  function Effect(sessions: Sessions, op: Op): Sessions {
    match op
    case OpMkdir(p) => if p.Top? then sessions[p.name := Session([], [])] else sessions
    case OpRmdir(p) => if p.Top? then sessions - {p.name} else sessions
    case OpGetAttr(_) => sessions
    case OpWrite(p, chunk, offset, reply) =>
      if p.Sub? && p.name in sessions && p.file == INPUT then
        sessions[p.name := Session(WriteAt(sessions[p.name].input, offset, chunk), reply)]
      else sessions
    case OpTruncate(p, length) =>
      if Shrinks(sessions, p, length) then sessions[p.name := sessions[p.name].Cut(p.file, length)] else sessions
  }

  function Play(ops: seq<Op>): Sessions {
    if ops == [] then map[] else Effect(Play(ops[..|ops| - 1]), ops[|ops| - 1])
  }

  /** One operation; the kernel sends no write for a directory, and growing truncates are left out. */
  method Perform(fs: GPTfs, op: Op)
    requires fs.Valid()
    modifies fs
    ensures fs.Valid() && fs.sessions == Effect(old(fs.sessions), op)
  {
    match op {
      case OpMkdir(p) =>
        var r := fs.Mkdir(p);
      case OpRmdir(p) =>
        var r := fs.Rmdir(p);
      case OpGetAttr(p) =>
        var r := fs.GetAttr(p);
      case OpWrite(p, chunk, offset, reply) =>
        if p !in fs.directories {
          var r := fs.Write(p, chunk, offset, reply);
        }
      case OpTruncate(p, length) =>
        if p in fs.data && length <= |fs.data[p]| {
          var r := fs.Truncate(p, length);
        }
    }
  }

  /** After every run the four collections agree, on the sessions that the operations make of a plain map. */
  method Run(ops: seq<Op>) returns (fs: GPTfs)
    ensures fs.Valid() && fs.sessions == Play(ops)
  {
    fs := new GPTfs();
    for i := 0 to |ops|
      invariant fs.Valid() && fs.sessions == Play(ops[..i]) && fresh(fs)
    {
      assert ops[..i + 1][..i] == ops[..i];
      Perform(fs, ops[i]);
    }
    assert ops[..|ops|] == ops;
  }
}
