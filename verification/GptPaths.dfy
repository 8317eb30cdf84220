/**
 * The path functions of GPTfs (fuse/gptfs.py), on strings, and what they say of a normalised path: a
 * slash before each of its names, or a lone slash for the root.
 */
module GptPaths {

  /** A directory entry as the kernel hands it over. */
  type Name = s: string | s != "" && '/' !in s && s != "." && s != ".." witness "a"

  const INPUT: Name := "input"
  const OUTPUT: Name := "output"
  const ERROR: Name := "error"
  const SPECIAL: set<Name> := {INPUT, OUTPUT, ERROR}

  /** _full_path. */
  function FullPath(partial: string): string {
    if partial != "" && partial[0] == '/' then partial else "/" + partial
  }

  function LStrip(s: string): string {
    if s != "" && s[0] == '/' then LStrip(s[1..]) else s
  }

  function RStrip(s: string): string {
    if s != "" && s[|s| - 1] == '/' then RStrip(s[..|s| - 1]) else s
  }

  /** str.split('/'). */
  function Split(s: string): (parts: seq<string>)
    ensures parts != []
  {
    if s == "" then [""]
    else if s[0] == '/' then [""] + Split(s[1..])
    else var rest := Split(s[1..]); [[s[0]] + rest[0]] + rest[1..]
  }

  /** path.strip('/').split('/'). */
  function Parts(path: string): (parts: seq<string>)
    ensures parts != []
  {
    Split(RStrip(LStrip(path)))
  }

  predicate IsSessionDir(path: string) {
    |Parts(path)| == 1 && path != "/"
  }

  predicate IsSpecialFile(path: string) {
    |Parts(path)| == 2 && Parts(path)[1] in ["input", "output", "error"]
  }

  function GetSessionDir(path: string): string {
    "/" + Parts(path)[0]
  }

  predicate EndsWith(s: string, suffix: string) {
    |suffix| <= |s| && s[|s| - |suffix|..] == suffix
  }

  /** os.path.join of a directory that does not end in a slash and a name. */
  function OsJoin(dir: string, name: Name): string {
    dir + "/" + name
  }

  /** The path with these names. */
  function Join(names: seq<Name>): string {
    if names == [] then "/" else Tail(names)
  }

  function Tail(names: seq<Name>): string {
    if names == [] then "" else "/" + names[0] + Tail(names[1..])
  }

  /** A character that is no slash goes in front of the first part. */
  lemma SplitStep(s: string)
    requires s != "" && s[0] != '/'
    ensures Split(s)[0] == [s[0]] + Split(s[1..])[0] && Split(s)[1..] == Split(s[1..])[1..]
  {
  }

  lemma {:induction false} SplitName(name: string, rest: string)
    requires '/' !in name && (rest == "" || rest[0] == '/')
    ensures Split(name + rest) == [name] + if rest == "" then [] else Split(rest[1..])
  {
    if name == "" {
      assert name + rest == rest;
    } else {
      var s := name + rest;
      SplitName(name[1..], rest);
      assert s[1..] == name[1..] + rest && s[0] == name[0] && s[0] in name;
      SplitStep(s);
      assert Split(s) == [Split(s)[0]] + Split(s)[1..];
      assert [name[0]] + name[1..] == name;
    }
  }

  lemma {:induction false} SplitTail(names: seq<Name>)
    requires names != []
    ensures Split(Tail(names)[1..]) == names
  {
    var rest := Tail(names[1..]);
    assert Tail(names)[1..] == names[0] + rest;
    SplitName(names[0], rest);
    if |names| > 1 {
      SplitTail(names[1..]);
    }
    assert [names[0]] + names[1..] == names;
  }

  lemma {:induction false} TailEnds(names: seq<Name>)
    requires names != []
    ensures |Tail(names)| > 1 && Tail(names)[0] == '/'
    ensures Tail(names)[|Tail(names)| - 1] != '/'
  {
    var last := names[0][|names[0]| - 1];
    assert last in names[0];
    if |names| > 1 {
      TailEnds(names[1..]);
    }
  }

  /** The parts of a path are its names; the root has a single empty part. */
  lemma PartsOfJoin(names: seq<Name>)
    ensures Parts(Join(names)) == if names == [] then [""] else names
  {
    if names != [] {
      var path := Tail(names);
      TailEnds(names);
      SplitTail(names);
      assert names[0][0] in names[0] && path[1..][0] == names[0][0];
      assert LStrip(path) == path[1..];
      assert RStrip(path[1..]) == path[1..];
    } else {
      assert LStrip("/") == LStrip("") == "";
    }
  }

  lemma JoinInjective(a: seq<Name>, b: seq<Name>)
    requires Join(a) == Join(b)
    ensures a == b
  {
    PartsOfJoin(a);
    PartsOfJoin(b);
  }

  lemma JoinOne(name: Name)
    ensures Join([name]) == Tail([name]) == "/" + name
  {
    var one := [name];
    assert one[1..] == [];
    assert Tail(one) == "/" + one[0] + Tail(one[1..]);
  }

  /** What the operations of GPTfs ask of a path, in terms of its names. */
  lemma PathTests(names: seq<Name>)
    ensures FullPath(Join(names)) == Join(names)
    ensures IsSessionDir(Join(names)) <==> |names| == 1
    ensures IsSpecialFile(Join(names)) <==> |names| == 2 && names[1] in SPECIAL
    ensures names != [] ==> GetSessionDir(Join(names)) == Join([names[0]])
    ensures |names| == 1 ==> forall f: Name :: OsJoin(Join(names), f) == Join(names + [f])
    ensures |names| == 2 ==> (EndsWith(Join(names), "/input") <==> names[1] == INPUT)
  {
    PartsOfJoin(names);
    if names != [] {
      TailEnds(names);
      JoinOne(names[0]);
    }
    if |names| == 1 {
      forall f: Name ensures OsJoin(Join(names), f) == Join(names + [f]) {
        JoinOne(names[0]);
        JoinOne(f);
        assert names == [names[0]] && (names + [f])[1..] == [f];
      }
    }
    if |names| == 2 {
      LastName(names);
    }
  }

  predicate IsLastSlash(s: string, i: int) {
    0 <= i < |s| && s[i] == '/' && forall j | i < j < |s| :: s[j] != '/'
  }

  lemma LastSlashUnique(s: string, i: int, j: int)
    requires IsLastSlash(s, i) && IsLastSlash(s, j)
    ensures i == j
  {
  }

  lemma SlashBeforeName(dir: string, f: string)
    requires '/' !in f
    ensures IsLastSlash(dir + ("/" + f), |dir|)
  {
    var s := dir + ("/" + f);
    forall j | |dir| < j < |s| ensures s[j] != '/' {
      assert s[j] == f[j - |dir| - 1] && f[j - |dir| - 1] in f;
    }
  }

  lemma LastName(names: seq<Name>)
    requires |names| == 2
    ensures EndsWith(Join(names), "/input") <==> names[1] == INPUT
  {
    var dir, f := "/" + names[0], names[1];
    JoinOne(f);
    assert names[1..] == [f];
    var s := Join(names);
    assert s == dir + ("/" + f);
    assert s[|dir|..] == "/" + f;
    SlashBeforeName(dir, f);
    if EndsWith(s, "/input") {
      var at := |s| - 6;
      assert s == s[..at] + ("/" + "input");
      SlashBeforeName(s[..at], "input");
      LastSlashUnique(s, at, |dir|);
      assert ("/" + f)[1..] == f && ("/" + "input")[1..] == "input";
    }
    if f == INPUT {
      assert s[|s| - 6..] == "/" + f;
    }
  }
}
