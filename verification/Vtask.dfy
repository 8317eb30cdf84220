/**
 * The vtask, vvar and vdso areas (arch/x86/entry/vdso/vma.c) and the user-side computation of the
 * task's address (arch/x86/entry/vdso/vget_task_struct_info.c).
 */
module Vtask {

  import opened Wrappers

  type Answer = x: int | x <= 0

  const PAGE_SIZE: nat := 4096
  const VTASK_PAGES: nat := 6                        // VVAR_TASK_STRUCT_NR_PAGES
  const VTASK_SIZE: nat := VTASK_PAGES * PAGE_SIZE
  const METADATA_PAGE: nat := VTASK_PAGES - 1
  const METADATA_MAGIC: nat := 0x54534B4D
  const TASK_END: nat := 0x8000_0000_0000            // user addresses are below
  const WORD: nat := 0x1_0000_0000_0000_0000
  const EINTR := 4
  const EINVAL := 22

  datatype Kind = Task | Vvar | Text | Other

  /** A mapping of `n` pages from page `from` on. */
  datatype Area = Area(kind: Kind, from: nat, n: nat) {
    predicate Has(page: nat) {
      from <= page < from + n
    }
  }

  /** The mappings of an address space, and the context fields that map_vdso sets. */
  datatype AddressSpace = AddressSpace(areas: set<Area>, vdso: nat, image: nat, vtask: nat, locked: bool)

  /** struct vdso_image: its size and -sym_vvar_start, in pages. */
  datatype Image = Image(id: nat, text: nat, vvar: nat)

  predicate Apart(a: Area, from: nat, n: nat) {
    a.n > 0 && (a.from + a.n <= from || from + n <= a.from)
  }

  /** Nothing is mapped in a range. */
  predicate FreeRange(areas: set<Area>, from: nat, n: nat) {
    forall a <- areas :: Apart(a, from, n)
  }

  /** do_munmap of a range that holds whole mappings only. */
  function Unmap(areas: set<Area>, from: nat, n: nat): set<Area> {
    set a | a in areas && !(from <= a.from && a.from + a.n <= from + n)
  }

  /** The three areas side by side from page `base` on: the task, the vvar pages, the text. */
  function TaskArea(base: nat): Area { Area(Task, base, VTASK_PAGES) }
  function VvarArea(image: Image, base: nat): Area { Area(Vvar, base + VTASK_PAGES, image.vvar) }
  function TextArea(image: Image, base: nat): Area { Area(Text, base + VTASK_PAGES + image.vvar, image.text) }

  function Laid(areas: set<Area>, image: Image, base: nat): set<Area> {
    areas + {TextArea(image, base)} + {VvarArea(image, base)} + {TaskArea(base)}
  }

  /** The length map_vdso asks for, in pages. */
  function Total(image: Image): nat {
    VTASK_PAGES + image.vvar + image.text
  }

  /** The areas are disjoint, fill exactly the range that was asked for, in order, and stay clear of all others. */
  lemma LaidFillsRange(areas: set<Area>, image: Image, base: nat, page: nat)
    requires FreeRange(areas, base, Total(image))
    ensures base <= page < base + Total(image) <==>
            TaskArea(base).Has(page) || VvarArea(image, base).Has(page) || TextArea(image, base).Has(page)
    ensures forall a <- Laid(areas, image, base), b <- Laid(areas, image, base) - areas ::
              a.Has(page) && b.Has(page) ==> a == b
    ensures VvarArea(image, base).from == base + TaskArea(base).n
    ensures TextArea(image, base).from == VvarArea(image, base).from + VvarArea(image, base).n
  {
  }

  lemma UnmapUndoesText(areas: set<Area>, image: Image, base: nat)
    requires FreeRange(areas, base, Total(image))
    ensures Unmap(areas + {TextArea(image, base)}, base + VTASK_PAGES + image.vvar, image.text) == areas
  {
    forall a | a in areas
      ensures !(base + VTASK_PAGES + image.vvar <= a.from && a.from + a.n <= base + Total(image))
    {
      assert Apart(a, base, Total(image));
    }
    assert TextArea(image, base) in areas ==> Apart(TextArea(image, base), base, Total(image));
  }

  lemma UnmapUndoesVvar(areas: set<Area>, image: Image, base: nat)
    requires FreeRange(areas, base, Total(image)) && image.text > 0
    ensures var withText := areas + {TextArea(image, base)};
      Unmap(withText + {VvarArea(image, base)}, base + VTASK_PAGES, image.vvar) == withText
  {
    forall a | a in areas
      ensures !(base + VTASK_PAGES <= a.from && a.from + a.n <= base + VTASK_PAGES + image.vvar)
    {
      assert Apart(a, base, Total(image));
    }
    assert VvarArea(image, base) in areas ==> Apart(VvarArea(image, base), base, Total(image));
  }

  /** The installation of the three areas, each failure unmapping those before it. */
  method InstallAreas(areas0: set<Area>, image: Image, base: nat, text: Answer, vvar: Answer, vtask: Answer)
    returns (areas: set<Area>, ret: int)
    requires FreeRange(areas0, base, Total(image)) && image.text > 0
    ensures ret == if text != 0 then text else if vvar != 0 then vvar else vtask
    ensures areas == if ret == 0 then Laid(areas0, image, base) else areas0
  {
    var addr := base + VTASK_PAGES;
    var textStart := addr + image.vvar;
    UnmapUndoesText(areas0, image, base);
    UnmapUndoesVvar(areas0, image, base);
    if text != 0 {
      return areas0, text;
    }
    areas := areas0 + {Area(Text, textStart, image.text)};
    if vvar != 0 {
      areas := Unmap(areas, textStart, image.text);
      return areas, vvar;
    }
    areas := areas + {Area(Vvar, addr, image.vvar)};
    if vtask != 0 {
      areas := Unmap(areas, addr, image.vvar);
      areas := Unmap(areas, textStart, image.text);
      return areas, vtask;
    }
    areas := areas + {Area(Task, addr - VTASK_PAGES, VTASK_PAGES)};
    return areas, 0;
  }

  /**
   * map_vdso, where get_unmapped_area has found `area`. It maps all three areas or none of them, and
   * the lock is free again on every path.
   */
  method MapVdso(mm0: AddressSpace, image: Image, killed: bool, area: nat, text: Answer, vvar: Answer, vtask: Answer)
    returns (mm: AddressSpace, ret: int)
    requires !mm0.locked && area % PAGE_SIZE == 0 && area + Total(image) * PAGE_SIZE <= TASK_END && image.text > 0
    requires FreeRange(mm0.areas, area / PAGE_SIZE, Total(image))
    ensures ret == if killed then -EINTR else if text != 0 then text else if vvar != 0 then vvar else vtask
    ensures ret == 0 ==>
      mm == AddressSpace(Laid(mm0.areas, image, area / PAGE_SIZE), area + VTASK_SIZE + image.vvar * PAGE_SIZE, image.id, area, false)
    ensures ret != 0 ==> mm == mm0
  {
    if killed {
      return mm0, -EINTR;
    }
    mm := mm0.(locked := true);
    var addr := area + VTASK_SIZE;
    var textStart := addr + image.vvar * PAGE_SIZE;
    var areas;
    areas, ret := InstallAreas(mm.areas, image, area / PAGE_SIZE, text, vvar, vtask);
    mm := mm.(areas := areas);
    if ret == 0 {
      mm := mm.(vdso := textStart, image := image.id, vtask := addr - VTASK_SIZE);
    }
    mm := mm.(locked := false);
  }

  predicate IsErrValue(x: nat) {
    WORD - 4095 <= x
  }

  /** The error test comes after the addition: it never sees a failure of get_unmapped_area. */
  lemma FailureIsNotSeen(area: nat)
    requires area < WORD && IsErrValue(area)
    ensures !IsErrValue((area + VTASK_SIZE) % WORD)
  {
    assert (area + VTASK_SIZE) % WORD == area + VTASK_SIZE - WORD;
  }

  /** A task_struct: its physical address and its size. */
  datatype TaskStruct = TaskStruct(phys: nat, size: nat) {
    function Frame(): nat { phys / PAGE_SIZE }
    function Offset(): nat { phys % PAGE_SIZE }
  }

  /** What a page of the vtask area shows: nothing yet, a page frame, or the metadata page. */
  datatype Slot = Empty | Frame(pfn: nat) | Metadata(magic: nat, taskOffset: nat, taskSize: nat)

  datatype Fault = Resolved(slot: Slot) | OutOfMemory | BusError

  /** vtask_fault: it fills the page from the task that happens to fault. */
  function VtaskFault(current: TaskStruct, pgoff: nat, room: bool): Fault {
    if pgoff == METADATA_PAGE then
      if room then Resolved(Metadata(METADATA_MAGIC, current.Offset(), current.size)) else OutOfMemory
    else if pgoff >= VTASK_PAGES then BusError
    else Resolved(Frame(current.Frame() + pgoff))
  }

  /** An access by a thread of the address space; `room` says a page can be allocated. */
  datatype Access = Access(task: TaskStruct, pgoff: nat, room: bool)

  type Slots = s: seq<Slot> | |s| == VTASK_PAGES witness [Empty, Empty, Empty, Empty, Empty, Empty]

  function Touch(slots: Slots, a: Access): Slots {
    var fault := VtaskFault(a.task, a.pgoff, a.room);
    if a.pgoff < VTASK_PAGES && slots[a.pgoff].Empty? && fault.Resolved? then slots[a.pgoff := fault.slot] else slots
  }

  /** The area after a run of accesses by any threads. */
  function After(run: seq<Access>): Slots {
    if run == [] then [Empty, Empty, Empty, Empty, Empty, Empty]
    else Touch(After(run[..|run| - 1]), run[|run| - 1])
  }

  predicate Resolves(a: Access, pgoff: nat) {
    a.pgoff == pgoff && (pgoff == METADATA_PAGE ==> a.room)
  }

  /** `k` is the first access in the run that could be given the page. */
  ghost predicate First(run: seq<Access>, pgoff: nat, k: nat) {
    k < |run| && Resolves(run[k], pgoff) && forall j | 0 <= j < k :: !Resolves(run[j], pgoff)
  }

  lemma {:induction false} EmptyUntilTouched(run: seq<Access>, pgoff: nat)
    requires pgoff < VTASK_PAGES && forall j | 0 <= j < |run| :: !Resolves(run[j], pgoff)
    ensures After(run)[pgoff].Empty?
  {
    if run != [] {
      EmptyUntilTouched(run[..|run| - 1], pgoff);
    }
  }

  /** Every page shows the task that touched it first, for good. */
  lemma {:induction false} FirstTouchStays(run: seq<Access>, pgoff: nat, k: nat)
    requires pgoff < VTASK_PAGES && First(run, pgoff, k)
    ensures After(run)[pgoff] == VtaskFault(run[k].task, pgoff, run[k].room).slot
  {
    var before := run[..|run| - 1];
    if k == |run| - 1 {
      EmptyUntilTouched(before, pgoff);
    } else {
      assert First(before, pgoff, k);
      FirstTouchStays(before, pgoff, k);
    }
  }

  /** __vdso_get_task_struct_info: the pointer computed from the address of the vdso data. */
  function GetTaskStructInfo(vdata: nat, slots: Slots, info: bool): Result<nat, int>
    requires VTASK_SIZE <= vdata
  {
    if !info then Err(-EINVAL) else
    var base := vdata / PAGE_SIZE * PAGE_SIZE - VTASK_PAGES * PAGE_SIZE;
    if base == 0 then Err(-EINVAL) else
    var metadata := slots[(VTASK_SIZE - PAGE_SIZE) / PAGE_SIZE];
    if !metadata.Metadata? || metadata.magic != METADATA_MAGIC then Err(-EINVAL)
    else Ok(base + metadata.taskOffset)
  }

  /** The physical byte behind an address of the vtask area that starts at `area`. */
  function PhysAt(area: nat, slots: Slots, addr: nat): Result<nat, int> {
    if !(area <= addr < area + VTASK_SIZE) then Err(-EINVAL) else
    var slot := slots[(addr - area) / PAGE_SIZE];
    if slot.Frame? then Ok(slot.pfn * PAGE_SIZE + (addr - area) % PAGE_SIZE) else Err(-EINVAL)
  }

  /** User space arrives at the area that map_vdso placed: the data lies within the first vvar page. */
  lemma UserFindsVtask(area: nat, dataOffset: nat, slots: Slots)
    requires area % PAGE_SIZE == 0 && area > 0 && dataOffset < PAGE_SIZE
    ensures var r := GetTaskStructInfo(area + VTASK_SIZE + dataOffset, slots, true);
      && (r.Ok? <==> slots[METADATA_PAGE].Metadata? && slots[METADATA_PAGE].magic == METADATA_MAGIC)
      && (r.Ok? ==> r.value == area + slots[METADATA_PAGE].taskOffset)
  {
    assert (area + VTASK_SIZE + dataOffset) / PAGE_SIZE * PAGE_SIZE == area + VTASK_SIZE;
  }

  /** An address in a page that shows the frame of a task, counted from the start of that task's frame. */
  lemma PhysOf(area: nat, slots: Slots, at: nat, frame: nat)
    requires at < METADATA_PAGE * PAGE_SIZE && slots[at / PAGE_SIZE] == Frame(frame + at / PAGE_SIZE)
    ensures PhysAt(area, slots, area + at) == Ok(frame * PAGE_SIZE + at)
  {
  }

  /** Addresses from the metadata page on show no task. */
  lemma NoTaskBehind(area: nat, slots: Slots, at: nat)
    requires at >= METADATA_PAGE * PAGE_SIZE && slots[METADATA_PAGE].Metadata?
    ensures PhysAt(area, slots, area + at).Err?
  {
  }

  lemma FrameAndOffset(frame: nat, offset: nat, phys: nat)
    requires offset < PAGE_SIZE
    ensures frame * PAGE_SIZE + offset == phys <==> frame == phys / PAGE_SIZE && offset == phys % PAGE_SIZE
  {
  }

  /**
   * After any run of accesses by the threads of an address space, the computed pointer plus `off` shows
   * byte `off` of thread `t`'s own task exactly when it stays within the first five pages, the thread
   * that first touched that page has its task in the same page frame as `t`, and the thread that first
   * touched the metadata page has its task at the same offset in a page.
   */
  lemma PointerReaches(area: nat, dataOffset: nat, run: seq<Access>, t: TaskStruct, off: nat, m: nat, d: nat)
    requires area % PAGE_SIZE == 0 && area > 0 && dataOffset < PAGE_SIZE
    requires First(run, METADATA_PAGE, m)
    requires var page := (run[m].task.Offset() + off) / PAGE_SIZE; page < METADATA_PAGE ==> First(run, page, d)
    ensures var r := GetTaskStructInfo(area + VTASK_SIZE + dataOffset, After(run), true);
      && r == Ok(area + run[m].task.Offset())
      && (PhysAt(area, After(run), r.value + off) == Ok(t.phys + off) <==>
            && run[m].task.Offset() + off < METADATA_PAGE * PAGE_SIZE
            && run[d].task.Frame() == t.Frame() && run[m].task.Offset() == t.Offset())
  {
    UserFindsVtask(area, dataOffset, After(run));
    FirstTouchStays(run, METADATA_PAGE, m);
    var at := run[m].task.Offset() + off;
    if at < METADATA_PAGE * PAGE_SIZE {
      FirstTouchStays(run, at / PAGE_SIZE, d);
      PhysOf(area, After(run), at, run[d].task.Frame());
      FrameAndOffset(run[d].task.Frame(), run[m].task.Offset(), t.phys);
    } else {
      NoTaskBehind(area, After(run), at);
    }
  }

  /** With one thread: exactly the bytes of its task within the first five pages are reached, each in its place. */
  lemma SingleThreadReaches(area: nat, dataOffset: nat, run: seq<Access>, t: TaskStruct, off: nat, m: nat, d: nat)
    requires area % PAGE_SIZE == 0 && area > 0 && dataOffset < PAGE_SIZE
    requires forall k | 0 <= k < |run| :: run[k].task == t
    requires First(run, METADATA_PAGE, m)
    requires (t.Offset() + off) / PAGE_SIZE < METADATA_PAGE ==> First(run, (t.Offset() + off) / PAGE_SIZE, d)
    ensures var r := GetTaskStructInfo(area + VTASK_SIZE + dataOffset, After(run), true);
      && r.Ok?
      && (PhysAt(area, After(run), r.value + off) == Ok(t.phys + off) <==> t.Offset() + off < METADATA_PAGE * PAGE_SIZE)
  {
    PointerReaches(area, dataOffset, run, t, off, m, d);
  }

  const PMD_SIZE: nat := 0x20_0000
  const DEFAULT_MAP_WINDOW: nat := TASK_END - PAGE_SIZE

  function PageAlign(x: nat): nat {
    (x + PAGE_SIZE - 1) / PAGE_SIZE * PAGE_SIZE
  }

  /** The end of the room for `len` bytes above `start`: the next PMD boundary, within the map window. */
  function RoomEnd(start: nat, len: nat): nat {
    var end := (start + len + PMD_SIZE - 1) / PMD_SIZE * PMD_SIZE;
    if end >= DEFAULT_MAP_WINDOW then DEFAULT_MAP_WINDOW else end
  }

  /** get_random_int() % n. */
  method RandomBelow(random: nat, n: nat) returns (r: nat)
    requires n > 0
    ensures r < n && (random < n ==> r == random)
  {
    r := random % n;
  }

  /**
   * vdso_addr: it draws a page above the stack from which `len` bytes end within the room, or the very
   * first page when there is no room; every page in the room can be drawn. align_vdso_addr may then move
   * it up to another page.
   */
  method VdsoAddr(stack: nat, len: nat, random: nat, align: nat -> nat) returns (addr: nat, drawn: nat)
    requires len % PAGE_SIZE == 0 && len < DEFAULT_MAP_WINDOW
    requires forall a: nat | a % PAGE_SIZE == 0 :: a <= align(a) && align(a) % PAGE_SIZE == 0
    ensures addr == align(drawn) && addr % PAGE_SIZE == 0 && stack <= drawn <= addr
    ensures drawn % PAGE_SIZE == 0 && PageAlign(stack) <= drawn < PageAlign(stack) + PMD_SIZE
    ensures var start := PageAlign(stack); var end := RoomEnd(start, len);
      if start + len <= end then start <= drawn && drawn + len <= end else drawn == start
    ensures forall x | PageAlign(stack) <= x && x + len <= RoomEnd(PageAlign(stack), len) && x % PAGE_SIZE == 0 ::
      random == (x - PageAlign(stack)) / PAGE_SIZE ==> drawn == x
  {
    var start := PageAlign(stack);
    var end: int := (start + len + PMD_SIZE - 1) / PMD_SIZE * PMD_SIZE;
    if end >= DEFAULT_MAP_WINDOW {
      end := DEFAULT_MAP_WINDOW;
    }
    end := end - len;
    if end > start {
      var offset := RandomBelow(random, (end - start) / PAGE_SIZE + 1);
      drawn := start + offset * PAGE_SIZE;
    } else {
      drawn := start;
    }
    addr := align(drawn);
  }
}
