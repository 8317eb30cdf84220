/**
 * Contiguous pages for shared mappings without an MMU (fs/ramfs/file-nommu.c): a block of 2^order
 * pages is allocated, trimmed and attached to the inode; a mapping is allowed where the pages lie in
 * physical order.
 */
module NommuPages {

  import opened Wrappers

  type Answer = x: int | x <= 0

  const PAGE_SIZE: nat := 4096
  const MAX_ORDER: nat := 11
  const WORD: nat := 0x1_0000_0000_0000_0000
  const EFBIG := 27
  const ENOMEM := 12
  const ENOSYS := 38

  function Pow2(n: nat): nat {
    if n == 0 then 1 else 2 * Pow2(n - 1)
  }

  /** fls: the number of bits needed for `n`. */
  function BitLength(n: nat): nat {
    if n == 0 then 0 else 1 + BitLength(n / 2)
  }

  /** get_order on a 64-bit machine, where size 0 wraps around. */
  function GetOrder(size: nat): nat {
    if size == 0 then 52 else BitLength((size - 1) / PAGE_SIZE)
  }

  function PagesFor(size: nat): nat {
    (size + PAGE_SIZE - 1) / PAGE_SIZE
  }

  lemma {:induction false} BitLengthBounds(n: nat)
    ensures n < Pow2(BitLength(n))
    ensures n > 0 ==> Pow2(BitLength(n) - 1) <= n
  {
    if n > 0 {
      BitLengthBounds(n / 2);
    }
  }

  /** The order is the smallest whose block holds the size. */
  lemma OrderFits(size: nat)
    requires size > 0
    ensures 0 < PagesFor(size) <= Pow2(GetOrder(size))
    ensures GetOrder(size) > 0 ==> Pow2(GetOrder(size) - 1) < PagesFor(size)
  {
    var n := (size - 1) / PAGE_SIZE;
    assert PagesFor(size) == n + 1;
    BitLengthBounds(n);
  }

  /** A page of the block: its references, how often it was freed, and where it is in the page cache. */
  datatype Page = Page(refs: nat, frees: nat, cached: Option<nat>, zero: bool, dirty: bool, uptodate: bool, locked: bool)

  function Free(p: Page): Page
    requires p.refs == 1 && p.cached.None?
  {
    p.(refs := 0, frees := p.frees + 1)
  }

  /** As alloc_pages hands out a block: only the first page carries the reference. */
  function Block(n: nat): seq<Page> {
    seq(n, i => Page(if i == 0 then 1 else 0, 0, None, false, false, false, false))
  }

  /** Freed exactly once, and in no page cache. */
  predicate Freed(p: Page) {
    p.refs == 0 && p.frees == 1 && p.cached.None?
  }

  /** In the page cache at `i` and held by it alone, zeroed and pinned as dirty. */
  predicate Attached(p: Page, i: nat) {
    p.refs == 1 && p.frees == 0 && p.cached == Some(i) && p.zero && p.dirty && p.uptodate && !p.locked
  }

  /** The first page that add_to_page_cache_lru refuses, or `n`. */
  ghost predicate FirstRefused(add: nat -> Answer, n: nat, a: nat) {
    a <= n && (forall i: nat :: i < a ==> add(i) == 0) && (a < n ==> add(a) < 0)
  }

  /**
   * ramfs_nommu_expand_for_mapping. The attached pages are the prefix before the first refusal, each at
   * its own index, and every other page of the block has been freed exactly once.
   */
  method Expand(isize: nat, newsize: nat, sizeOk: Answer, room: bool, add: nat -> Answer)
    returns (ret: int, isize': nat, pages: seq<Page>, attached: nat)
    ensures GetOrder(newsize) >= MAX_ORDER ==> ret == -EFBIG && isize' == isize && pages == []
    ensures GetOrder(newsize) < MAX_ORDER && sizeOk < 0 ==> ret == sizeOk && isize' == isize && pages == []
    ensures GetOrder(newsize) < MAX_ORDER && sizeOk == 0 ==> isize' == newsize
    ensures GetOrder(newsize) < MAX_ORDER && sizeOk == 0 && !room ==> ret == -ENOMEM && pages == []
    ensures GetOrder(newsize) < MAX_ORDER && sizeOk == 0 && room ==>
      && FirstRefused(add, PagesFor(newsize), attached)
      && ret == (if attached < PagesFor(newsize) then add(attached) else 0)
      && |pages| == Pow2(GetOrder(newsize)) && PagesFor(newsize) <= |pages|
      && (forall i | 0 <= i < attached :: Attached(pages[i], i))
      && (forall i | attached <= i < |pages| :: Freed(pages[i]))
  {
    pages, attached := [], 0;
    var order := GetOrder(newsize);
    if order >= MAX_ORDER {
      return -EFBIG, isize, [], 0;
    }
    if sizeOk != 0 {
      return sizeOk, isize, [], 0;
    }
    isize' := newsize;
    if !room {
      return -ENOMEM, isize', [], 0;
    }
    OrderFits(newsize);
    var xpages := Pow2(order);
    var npages := PagesFor(newsize);
    pages := Block(xpages);
    pages := seq(xpages, i requires 0 <= i < xpages => pages[i].(refs := 1));     // split_page
    for loop := npages to xpages
      invariant |pages| == xpages
      invariant forall i | 0 <= i < npages || loop <= i < xpages :: pages[i] == Page(1, 0, None, false, false, false, false)
      invariant forall i | npages <= i < loop :: Freed(pages[i])
    {
      pages := pages[loop := Free(pages[loop])];
    }
    pages := seq(xpages, i requires 0 <= i < xpages => pages[i].(zero := i < npages));   // memset
    ret := 0;
    var loop := 0;
    while loop < npages
      invariant 0 <= loop <= npages && |pages| == xpages && ret == 0
      invariant forall i: nat | i < loop :: add(i) == 0
      invariant forall i | 0 <= i < loop :: Attached(pages[i], i)
      invariant forall i | loop <= i < npages :: pages[i] == Page(1, 0, None, true, false, false, false)
      invariant forall i | npages <= i < xpages :: Freed(pages[i])
    {
      ret := add(loop);
      if ret < 0 {
        break;
      }
      pages := pages[loop := pages[loop].(cached := Some(loop), locked := true, refs := pages[loop].refs + 1)];
      pages := pages[loop := pages[loop].(dirty := true, uptodate := true)];
      pages := pages[loop := pages[loop].(locked := false)];
      pages := pages[loop := pages[loop].(refs := pages[loop].refs - 1)];              // put_page
      loop := loop + 1;
    }
    attached := loop;
    while loop < npages
      invariant attached <= loop <= npages && |pages| == xpages
      invariant forall i | 0 <= i < attached :: Attached(pages[i], i)
      invariant forall i | loop <= i < npages :: pages[i] == Page(1, 0, None, true, false, false, false)
      invariant forall i | attached <= i < loop || npages <= i < xpages :: Freed(pages[i])
    {
      pages := pages[loop := Free(pages[loop])];
      loop := loop + 1;
    }
  }

  /** A page frame number; a page's address follows from it. */
  type Frame = nat

  function PageAddress(p: Frame): nat {
    p * PAGE_SIZE
  }

  /** The pages an inode has, by index. */
  type Cache = map<nat, Frame>

  /** The pages from `pgoff` on are all there, one after the other in memory. */
  ghost predicate Contiguous(cache: Cache, pgoff: nat, n: nat) {
    pgoff in cache && forall j | pgoff <= j < pgoff + n :: j in cache && cache[j] == cache[pgoff] + (j - pgoff)
  }

  /** find_get_pages_contig: the run of pages that are there, each with one more reference. */
  method FindGetPagesContig(cache: Cache, refs0: multiset<Frame>, pgoff: nat, n: nat)
    returns (pages: seq<Frame>, refs: multiset<Frame>)
    ensures |pages| <= n && refs == refs0 + multiset(pages)
    ensures forall j | pgoff <= j < pgoff + |pages| :: j in cache && cache[j] == pages[j - pgoff]
    ensures |pages| < n ==> pgoff + |pages| !in cache
  {
    pages, refs := [], refs0;
    while |pages| < n && pgoff + |pages| in cache
      invariant |pages| <= n && refs == refs0 + multiset(pages)
      invariant forall j | pgoff <= j < pgoff + |pages| :: j in cache && cache[j] == pages[j - pgoff]
      decreases n - |pages|
    {
      refs := refs + multiset{cache[pgoff + |pages|]};
      pages := pages + [cache[pgoff + |pages|]];
    }
  }

  /** The mapping lies within the file. */
  predicate InFile(isize: nat, len: nat, pgoff: nat) {
    pgoff + PagesFor(len) <= PagesFor(isize)
  }

  /**
   * ramfs_nommu_get_unmapped_area, for a length that is not zero and does not wrap when rounded up. It
   * answers with the address of the first page exactly when the pages are there and in order, and every
   * reference it takes is given back.
   */
  method GetUnmappedArea(cache: Cache, refs0: multiset<Frame>, isize: nat, len: nat, pgoff: nat, room: bool)
    returns (r: Result<nat, int>, refs: multiset<Frame>)
    requires 0 < len <= WORD - PAGE_SIZE
    ensures refs == refs0
    ensures r.Ok? <==> InFile(isize, len, pgoff) && room && Contiguous(cache, pgoff, PagesFor(len))
    ensures r.Ok? ==> r.value == PageAddress(cache[pgoff])
    ensures r.Err? ==> r.error == -ENOSYS
  {
    refs, r := refs0, Err(-ENOSYS);
    var lpages, maxpages := PagesFor(len), PagesFor(isize);
    if pgoff >= maxpages || maxpages - pgoff < lpages || !room {
      return;
    }
    var pages;
    pages, refs := FindGetPagesContig(cache, refs, pgoff, lpages);
    label OutFreePages: {
      if |pages| != lpages {
        assert pgoff + |pages| !in cache;
        break OutFreePages;
      }
      var i, page := 1, pages[0] + 1;
      assert cache[pgoff + 0] == pages[0];
      while i < lpages
        invariant 1 <= i <= lpages && page == pages[0] + i
        invariant forall j | 0 <= j < i :: pages[j] == pages[0] + j
      {
        if pages[i] != page {
          assert cache[pgoff + i] != cache[pgoff] + i;
          break OutFreePages;
        }
        i, page := i + 1, page + 1;
      }
      r := Ok(PageAddress(pages[0]));
    }
    assert pages[0..] == pages;
    for i := 0 to |pages|
      invariant refs == refs0 + multiset(pages[i..])
    {
      assert pages[i..] == [pages[i]] + pages[i + 1..];
      refs := refs - multiset{pages[i]};
    }
    assert pages[|pages|..] == [];
  }

  /** What `Expand` leaves in the page cache, for a block that starts at frame `base`. */
  function CacheOf(base: Frame, pages: seq<Page>): Cache {
    map i | 0 <= i < |pages| && pages[i].cached == Some(i) :: base + i
  }

  /** After `Expand`, a mapping is possible at exactly the offsets and lengths that the attached pages cover. */
  lemma ExpandedIsMappable(base: Frame, size: nat, pages: seq<Page>, attached: nat, len: nat, pgoff: nat)
    requires len > 0 && attached <= PagesFor(size) <= |pages|
    requires forall i | 0 <= i < attached :: Attached(pages[i], i)
    requires forall i | attached <= i < |pages| :: Freed(pages[i])
    ensures Contiguous(CacheOf(base, pages), pgoff, PagesFor(len)) <==> pgoff + PagesFor(len) <= attached
    ensures attached == PagesFor(size) ==>
      (InFile(size, len, pgoff) <==> Contiguous(CacheOf(base, pages), pgoff, PagesFor(len)))
    ensures pgoff + PagesFor(len) <= attached ==>
      PageAddress(CacheOf(base, pages)[pgoff]) == PageAddress(base) + pgoff * PAGE_SIZE
  {
    var n := PagesFor(len);
    if Contiguous(CacheOf(base, pages), pgoff, n) {
      assert pgoff + (n - 1) in CacheOf(base, pages);
    }
  }
}
