/**
 * dup_mmap (kernel/fork.c): copies the parent's list of memory areas into a new mm, area by area,
 * linking each copy at the end through pprev and charging the accountable ones.
 */
module DupMmap {

  /** A memory area: its size in pages and the flags dup_mmap looks at. */
  datatype Area = Area(pages: nat, dontCopy: bool, account: bool, wipeOnFork: bool, lockFlags: bool)

  /** The tests that can fail for one area. */
  datatype Point = Fatal | EnoughMemory | DupArea | Policy | Userfault | AnonVma | CopyPages

  /**
   * Which calls fail: taking the parent's lock, ksm_fork, khugepaged_fork, the tests of area `i`, and
   * arch_dup_mmap.
   */
  datatype Env = Env(killed: bool, ksm: bool, khugepaged: bool, fails: (nat, Point) -> bool, arch: bool)

  class Vma {
    var area: Area
    var next: Vma?
    var prev: Vma?
    ghost var index: int    // position in the list of an mm

    constructor (a: Area)
      ensures area == a && next == null && prev == null
    {
      area, next, prev := a, null, null;
    }
  }

  /** The counters outside the mm: committed pages, allocated areas and policy references. */
  datatype Counters = Counters(committed: int, areas: int, policies: int)

  // ------------------------------------------------------------------------------------------
  // Reference.

  /** The copies of the first `n` areas of the parent: those without VM_DONTCOPY, in order, unlocked. */
  function Copies(parent: seq<Area>, n: nat): seq<Area>
    requires n <= |parent|
  {
    if n == 0 then [] else
    Copies(parent, n - 1) + if parent[n - 1].dontCopy then [] else [parent[n - 1].(lockFlags := false)]
  }

  /** The pages of the first `n` areas that are not copied. */
  function Skipped(parent: seq<Area>, n: nat): nat
    requires n <= |parent|
  {
    if n == 0 then 0 else Skipped(parent, n - 1) + if parent[n - 1].dontCopy then parent[n - 1].pages else 0
  }

  function Charge(areas: seq<Area>): nat {
    if areas == [] then 0 else
    var a := areas[|areas| - 1];
    Charge(areas[..|areas| - 1]) + if a.account then a.pages else 0
  }

  function Pages(areas: seq<Area>): nat {
    if areas == [] then 0 else Pages(areas[..|areas| - 1]) + areas[|areas| - 1].pages
  }

  /** The counters once a list of areas is charged, allocated and holds its policies. */
  function Booked(k: Counters, areas: seq<Area>): Counters {
    Counters(k.committed + Charge(areas), k.areas + |areas|, k.policies + |areas|)
  }

  function BookedOne(k: Counters, a: Area): Counters {
    Counters(k.committed + (if a.account then a.pages else 0), k.areas + 1, k.policies + 1)
  }

  lemma Append(areas: seq<Area>, a: Area)
    ensures Charge(areas + [a]) == Charge(areas) + if a.account then a.pages else 0
    ensures Pages(areas + [a]) == Pages(areas) + a.pages
  {
    assert (areas + [a])[..|areas|] == areas;
  }

  /** Booking a copy on top of a list books the longer list. */
  lemma BookOne(k: Counters, areas: seq<Area>, a: Area)
    ensures BookedOne(Booked(k, areas), a) == Booked(k, areas + [a.(lockFlags := false)])
  {
    Append(areas, a.(lockFlags := false));
  }

  /** A total that counts all pages of the parent, less those skipped, counts all pages of the copies. */
  lemma {:induction false} SkippedAndCopied(parent: seq<Area>, n: nat)
    requires n <= |parent|
    ensures Pages(Copies(parent, n)) == Pages(parent[..n]) - Skipped(parent, n)
  {
    if n > 0 {
      SkippedAndCopied(parent, n - 1);
      PrefixPages(parent, n);
      CopiedPages(parent, n);
    } else {
      assert parent[..n] == [];
    }
  }

  lemma PrefixPages(parent: seq<Area>, n: nat)
    requires 0 < n <= |parent|
    ensures Pages(parent[..n]) == Pages(parent[..n - 1]) + parent[n - 1].pages
  {
    assert parent[..n][..n - 1] == parent[..n - 1];
  }

  lemma CopiedPages(parent: seq<Area>, n: nat)
    requires 0 < n <= |parent|
    ensures Pages(Copies(parent, n)) == Pages(Copies(parent, n - 1)) + if parent[n - 1].dontCopy then 0 else parent[n - 1].pages
  {
    var before, a := Copies(parent, n - 1), parent[n - 1];
    if a.dontCopy {
      assert before + [] == before;
    } else {
      Append(before, a.(lockFlags := false));
    }
  }

  /** Exactly the areas that are not VM_DONTCOPY have a copy, each at the place its predecessors leave it. */
  lemma {:induction false} CopyOf(parent: seq<Area>, n: nat, i: nat)
    requires i < n <= |parent|
    ensures |Copies(parent, i)| <= |Copies(parent, n)| <= n
    ensures Copies(parent, n)[..|Copies(parent, i)|] == Copies(parent, i)
    ensures !parent[i].dontCopy ==>
              && |Copies(parent, i)| < |Copies(parent, n)|
              && Copies(parent, n)[|Copies(parent, i)|] == parent[i].(lockFlags := false)
  {
    if i < n - 1 {
      CopyOf(parent, n - 1, i);
    } else if i > 0 {
      CopyOf(parent, i, 0);
    }
  }

  /** Some test made for one of the first `n` areas fails. */
  predicate AnyFails(parent: seq<Area>, n: nat, e: Env)
    requires n <= |parent|
  {
    n > 0 && (AnyFails(parent, n - 1, e) || AreaFails(parent[n - 1], n - 1, e))
  }

  class Mm {
    var mmap: Vma?
    var mapCount: nat
    var totalVm: int
    ghost var nodes: seq<Vma>
    ghost var areas: seq<Area>

    /** The list from `mmap` on is `nodes`, next and prev inverse to each other, and map_count its length. */
    ghost predicate Linked()
      reads `mmap, `mapCount, `nodes, `areas, nodes
    {
      && mapCount == |nodes| == |areas|
      && mmap == (if nodes == [] then null else nodes[0])
      && (forall i {:trigger nodes[i].index} | 0 <= i < |nodes| :: nodes[i].index == i)
      && (forall i {:trigger nodes[i].area} | 0 <= i < |nodes| :: nodes[i].area == areas[i])
      && (forall i {:trigger nodes[i].next} | 0 <= i < |nodes| ::
            nodes[i].next == (if i + 1 < |nodes| then nodes[i + 1] else null))
      && (forall i {:trigger nodes[i].prev} | 0 <= i < |nodes| ::
            nodes[i].prev == (if 0 < i then nodes[i - 1] else null))
    }

    /** mm_init: an empty list. */
    constructor ()
      ensures Linked() && nodes == []
    {
      mmap, mapCount, totalVm, nodes, areas := null, 0, 0, [], [];
    }

    /** The links of one new area: *pprev = tmp, vm_prev = prev, and one more in map_count. */
    method LinkLast(tmp: Vma, prev: Vma?)
      requires Linked() && tmp !in nodes && tmp.next == null
      requires prev == if nodes == [] then null else nodes[|nodes| - 1]
      modifies this`mmap, this`mapCount, this`nodes, this`areas, tmp`prev, tmp`index, (set x | x in nodes)`next
      ensures Linked() && nodes == old(nodes) + [tmp] && areas == old(areas) + [tmp.area]
    {
      if prev == null {
        mmap := tmp;
      } else {
        prev.next := tmp;
      }
      tmp.prev := prev;
      tmp.index := |nodes|;
      mapCount := mapCount + 1;
      nodes := nodes + [tmp];
      areas := areas + [tmp.area];
      ghost var n := |nodes| - 1;
      forall i | 0 <= i < n
        ensures nodes[i] != tmp && nodes[i].index == i && nodes[i].area == areas[i]
        ensures nodes[i].next == nodes[i + 1] && nodes[i].prev == (if 0 < i then nodes[i - 1] else null)
      {
        assert nodes[i] == old(nodes)[i] && old(nodes)[i] in old(nodes);
        assert old(nodes[i].index) == i && old(nodes)[n - 1].index == n - 1;
      }
    }
  }

  /** Some test made for the area fails. */
  predicate AreaFails(a: Area, i: nat, e: Env) {
    !a.dontCopy && (FailsUnlinked(a, i, e) || (!a.wipeOnFork && e.fails(i, CopyPages)))
  }

  /** ... before the copy is linked. */
  predicate FailsUnlinked(a: Area, i: nat, e: Env) {
    e.fails(i, Fatal) || (a.account && e.fails(i, EnoughMemory)) || e.fails(i, DupArea) || e.fails(i, Policy) ||
    e.fails(i, Userfault) || (!a.wipeOnFork && e.fails(i, AnonVma))
  }

  /** The body of the loop for an area that is copied; `tmp` is null when nothing was linked. */
  method CopyArea(mm: Mm, a: Area, i: nat, prev: Vma?, before: Counters, e: Env)
    returns (ret: int, tmp: Vma?, k: Counters)
    requires mm.Linked() && prev == if mm.nodes == [] then null else mm.nodes[|mm.nodes| - 1]
    requires !a.dontCopy
    modifies mm`mmap, mm`mapCount, mm`nodes, mm`areas, (set x | x in mm.nodes)`next
    ensures mm.Linked() && ret <= 0
    ensures ret == 0 <==> !AreaFails(a, i, e)
    ensures tmp == null <==> FailsUnlinked(a, i, e)
    ensures tmp == null ==> mm.nodes == old(mm.nodes) && mm.areas == old(mm.areas) && k == before
    ensures tmp != null ==>
              && fresh(tmp) && mm.nodes == old(mm.nodes) + [tmp]
              && mm.areas == old(mm.areas) + [a.(lockFlags := false)] && k == BookedOne(before, a)
  {
    tmp, k := null, before;
    if e.fails(i, Fatal) {
      return -4, tmp, k;
    }
    var charge := 0;
    label failNomem: {
      if a.account {
        if e.fails(i, EnoughMemory) { break failNomem; }
        k := k.(committed := k.committed + a.pages);
        charge := a.pages;
      }
      if e.fails(i, DupArea) { break failNomem; }
      k := k.(areas := k.areas + 1);
      label failNomemPolicy: {
        if e.fails(i, Policy) { break failNomemPolicy; }
        k := k.(policies := k.policies + 1);
        label failNomemAnonVmaFork: {
          if e.fails(i, Userfault) { break failNomemAnonVmaFork; }
          if !a.wipeOnFork && e.fails(i, AnonVma) { break failNomemAnonVmaFork; }
          tmp := new Vma(a.(lockFlags := false));
          mm.LinkLast(tmp, prev);
          return if !a.wipeOnFork && e.fails(i, CopyPages) then -12 else 0, tmp, k;
        }
        k := k.(policies := k.policies - 1);
      }
      k := k.(areas := k.areas - 1);
    }
    k := k.(committed := k.committed - charge);
    return -12, tmp, k;
  }

  /**
   * dup_mmap. At every exit the list is linked, holds the copies of the first `done` areas of the
   * parent, and the pages charged, areas allocated and policies referenced are those of the list.
   */
  method DupMmap(mm: Mm, parent: seq<Area>, parentTotal: int, before: Counters, e: Env)
    returns (ret: int, done: nat, k: Counters)
    requires mm.Linked() && mm.nodes == []
    modifies mm
    ensures ret <= 0 && done <= |parent|
    ensures mm.Linked() && mm.areas == Copies(parent, done) && k == Booked(before, mm.areas)
    ensures ret == 0 ==> done == |parent| && mm.totalVm == parentTotal - Skipped(parent, |parent|)
    ensures ret == 0 <==> !e.killed && !e.ksm && !e.khugepaged && !e.arch && !AnyFails(parent, |parent|, e)
  {
    ret, done, k := -4, 0, before;
    if !e.killed {
      mm.totalVm := parentTotal;
      ret := -12;
      if !e.ksm && !e.khugepaged {
        ret, done, k := CopyAreas(mm, parent, before, e);
        if ret == 0 && e.arch {
          ret := -12;
        }
      }
    }
  }

  /** The loop over the parent's areas. */
  method CopyAreas(mm: Mm, parent: seq<Area>, before: Counters, e: Env) returns (ret: int, done: nat, k: Counters)
    requires mm.Linked() && mm.nodes == []
    modifies mm
    ensures ret <= 0 && done <= |parent|
    ensures mm.Linked() && mm.areas == Copies(parent, done) && k == Booked(before, mm.areas)
    ensures ret == 0 ==> done == |parent| && mm.totalVm == old(mm.totalVm) - Skipped(parent, |parent|)
    ensures ret == 0 <==> !AnyFails(parent, |parent|, e)
  {
    ret, done, k := 0, 0, before;
    var prev: Vma? := null;
    while done < |parent|
      invariant done <= |parent| && mm.Linked() && fresh(mm.nodes)
      invariant mm.areas == Copies(parent, done) && k == Booked(before, mm.areas)
      invariant prev == if mm.nodes == [] then null else mm.nodes[|mm.nodes| - 1]
      invariant mm.totalVm == old(mm.totalVm) - Skipped(parent, done)
      invariant ret == 0 && !AnyFails(parent, done, e)
    {
      if parent[done].dontCopy {
        mm.totalVm := mm.totalVm - parent[done].pages;
      } else {
        BookOne(before, mm.areas, parent[done]);
        ret, prev, k := CopyArea(mm, parent[done], done, prev, k, e);
        if ret != 0 {
          FailsFrom(parent, done, |parent|, e);
          done := if prev == null then done else done + 1;
          break;
        }
      }
      done := done + 1;
    }
  }

  lemma {:induction false} FailsFrom(parent: seq<Area>, i: nat, n: nat, e: Env)
    requires i < n <= |parent| && AreaFails(parent[i], i, e)
    ensures AnyFails(parent, n, e)
  {
    if i < n - 1 {
      FailsFrom(parent, i, n - 1, e);
    }
  }
}
