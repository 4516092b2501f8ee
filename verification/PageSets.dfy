/**
 Which pages of memory are taken and who owns them, over every run of
 allocations, releases and changes of the heap break.
 */
module PageSets {
  import opened BitSets

  const PAGE_LEN := 1024

  /** Pages that the map of memory describes, and the last one, which is never given out. */
  const NPAGES := 128
  const RESERVED := 127

  /** align_page: up to the next multiple of the page length. */
  function AlignPage(len: int): (r: int)
    ensures len <= r < len + PAGE_LEN && r % PAGE_LEN == 0
  {
    (len - 1) / PAGE_LEN * PAGE_LEN + PAGE_LEN
  }

  /** PADDR_TO_NUM_PAGES */
  function NumPages(len: int): int {
    AlignPage(len) / PAGE_LEN
  }

  /** The number of pages searched for is the number of pages set exactly for whole pages. */
  lemma RoundingAgrees(len: nat)
    ensures len / PAGE_LEN == NumPages(len) <==> len % PAGE_LEN == 0
  {
  }

  function PagesOf(addr: int, len: int): set<int> {
    Range(addr / PAGE_LEN, len / PAGE_LEN)
  }

  /** A process's memory: its image from memStart up to and with heapBottom, and its stack. */
  datatype Image = Image(
    live: bool, memStart: int, heapTop: int, heapBreak: int, heapBottom: int, stackTop: int, stackSize: int)

  ghost predicate ImageOk(i: Image, own: set<int>) {
    && i.memStart % PAGE_LEN == 0 && (i.heapBottom + 1) % PAGE_LEN == 0
    && 0 < i.memStart <= i.heapTop <= i.heapBreak <= i.heapBottom
    && i.stackTop % PAGE_LEN == 0 && i.stackSize % PAGE_LEN == 0 && i.stackTop > 0 && i.stackSize > 0
    && PagesOf(i.memStart, i.heapBottom + 1 - i.memStart) !! PagesOf(i.stackTop, i.stackSize)
    && own == PagesOf(i.memStart, i.heapBottom + 1 - i.memStart) + PagesOf(i.stackTop, i.stackSize)
  }

  ghost predicate OwnerOk(i: Image, own: set<int>) {
    if i.live then ImageOk(i, own) else own == {}
  }

  /** taken: the pages in use; own: the pages in each protection table; bss: the first page after the kernel. */
  ghost predicate Owned(taken: set<int>, own: seq<set<int>>, bss: int) {
    && 1 <= bss <= RESERVED
    && Range(0, bss) <= taken <= Range(0, NPAGES) && RESERVED in taken
    && (forall p :: 0 <= p < |own| ==> own[p] <= taken && own[p] <= Range(bss, RESERVED - bss))
    && (forall p, q :: 0 <= p < q < |own| ==> own[p] !! own[q])
  }

  ghost predicate ImagesOk(own: seq<set<int>>, img: seq<Image>) {
    |own| == |img| && forall p :: 0 <= p < |own| ==> OwnerOk(img[p], own[p])
  }

  /** Pages that are free lie between the kernel and the reserved page. */
  lemma FreeInside(taken: set<int>, own: seq<set<int>>, bss: int, a: int, n: int)
    requires Owned(taken, own, bss) && n > 0 && 0 <= a && a + n <= NPAGES && Range(a, n) !! taken
    ensures bss <= a && a + n <= RESERVED
  {
  }

  /** A process takes pages that were free. */
  lemma Took(taken: set<int>, own: seq<set<int>>, bss: int, p: nat, a: int, n: int)
    requires Owned(taken, own, bss) && p < |own| && Range(a, n) !! taken && bss <= a && a + n <= RESERVED
    ensures Owned(taken + Range(a, n), own[p := own[p] + Range(a, n)], bss)
  {
  }

  /** A process gives back pages of its own. */
  lemma Gave(taken: set<int>, own: seq<set<int>>, bss: int, p: nat, r: set<int>)
    requires Owned(taken, own, bss) && p < |own| && r <= own[p]
    ensures Owned(taken - r, own[p := own[p] - r], bss)
  {
  }

  /** The kernel takes pages for itself. */
  lemma KernelTook(taken: set<int>, own: seq<set<int>>, bss: int, r: set<int>)
    requires Owned(taken, own, bss) && r <= Range(0, NPAGES)
    ensures Owned(taken + r, own, bss)
  {
  }

  /** The kernel gives back pages that no process owns. */
  lemma KernelGave(taken: set<int>, own: seq<set<int>>, bss: int, r: set<int>)
    requires Owned(taken, own, bss) && r <= Range(bss, RESERVED - bss)
    requires forall p :: 0 <= p < |own| ==> own[p] !! r
    ensures Owned(taken - r, own, bss)
  {
  }

  // ----- the heap break -----

  /** The words that a change of the break by size needs beyond the pages at hand. */
  function Request(i: Image, size: int): int {
    size - (i.heapBottom - i.heapBreak)
  }

  /** The image after the break has moved. */
  function Moved(i: Image, size: int): Image {
    i.(heapBreak := i.heapBreak + size,
       heapBottom := if Request(i, size) > 0 then i.heapBottom + AlignPage(Request(i, size)) else i.heapBottom)
  }

  /** The break moves inside the pages at hand. */
  lemma MovedInside(i: Image, own: set<int>, size: int)
    requires ImageOk(i, own) && i.heapTop <= i.heapBreak + size && Request(i, size) <= 0
    ensures ImageOk(Moved(i, size), own)
  {
  }

  /** The break moves beyond the pages at hand, with the pages behind them. */
  lemma MovedBeyond(i: Image, own: set<int>, size: int)
    requires ImageOk(i, own) && size > 0 && Request(i, size) > 0
    requires Range((i.heapBottom + 1) / PAGE_LEN, NumPages(Request(i, size))) !! own
    ensures ImageOk(Moved(i, size), own + Range((i.heapBottom + 1) / PAGE_LEN, NumPages(Request(i, size))))
  {
  }
}
