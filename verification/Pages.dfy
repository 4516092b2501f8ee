/**
 Page allocation and the heap break on the bitmaps themselves: the map of
 memory, and one protection table for each process.
 */
module Pages {
  import opened Bitmap
  import opened BitSets
  import opened PageSets

  const NULL := 0
  const ENOMEM := 12
  const MEM_MAP_LEN := 4
  const PTABLE_LEN := 32

  /** Every image has one page of stack and starts with one page of heap. */
  const USER_STACK_SIZE := PAGE_LEN
  const USER_HEAP_SIZE := PAGE_LEN

  /** A run of n free pages from a on. */
  ghost predicate FreeRun(taken: set<int>, a: int, n: int) {
    0 <= a && a + n <= NPAGES && Range(a, n) !! taken
  }

  lemma RunsAreClear(ws: seq<bv32>, n: nat)
    requires |ws| == MEM_MAP_LEN
    ensures forall a :: Clear(ws, a, n) <==> FreeRun(On(ws), a, n)
  {
  }

  /** Free runs lie behind the kernel and before the reserved page, so that none is as long as the map. */
  lemma NoWholeRun(taken: set<int>, own: seq<set<int>>, bss: int, n: nat)
    requires Owned(taken, own, bss)
    ensures forall a :: n > 0 && FreeRun(taken, a, n) ==> bss <= a && a + n <= RESERVED
  {
  }

  lemma BottomInside(taken: set<int>, own: seq<set<int>>, bss: int, p: nat, i: Image)
    requires Owned(taken, own, bss) && p < |own| && ImageOk(i, own[p])
    ensures (i.heapBottom + 1) / PAGE_LEN <= RESERVED
  {
  }

  lemma OwnIsTaken(taken: set<int>, own: seq<set<int>>, bss: int, p: nat)
    requires Owned(taken, own, bss) && p < |own|
    ensures own[p] <= taken
  {
  }

  lemma RangeInside(taken: set<int>, own: seq<set<int>>, bss: int, p: nat, a: int, n: int)
    requires Owned(taken, own, bss) && p < |own| && n > 0 && Range(a, n) <= own[p]
    ensures bss <= a && a + n <= RESERVED
  {
  }

  lemma FreePrefix(taken: set<int>, a: int, n: nat, m: nat)
    requires FreeRun(taken, a, n + m)
    ensures FreeRun(taken, a, n)
  {
  }

  /** What was taken at or before the start of a run leaves the end of the run free. */
  lemma FreeSuffix(taken: set<int>, a: int, n: nat, m: nat, b: int)
    requires FreeRun(taken, a, n + m) && b <= a
    ensures FreeRun(taken + Range(b, n), a + n, m)
  {
  }

  ghost predicate HasRun(taken: set<int>, n: int) {
    exists a :: FreeRun(taken, a, n)
  }

  /** Releasing what was allocated gives the map back bit for bit. */
  lemma ReleaseInverts(ws: seq<bv32>, ws1: seq<bv32>, ws2: seq<bv32>, a: nat, n: nat)
    requires Clear(ws, a, n) && Became(ws, ws1, a, n, true) && Became(ws1, ws2, a, n, false)
    ensures On(ws2) == On(ws)
  {
    hide Bit;
    ClearIs(ws, a, n);
    OnSet(ws, ws1, a, n);
    OnCleared(ws1, ws2, a, n);
  }

  /** A run that the searches find is refused by the setting of bits exactly if it holds the last page. */
  lemma RefusedIffLast(ws: seq<bv32>, a: nat, n: nat)
    requires |ws| == MEM_MAP_LEN && n > 0 && Clear(ws, a, n)
    ensures a + n >= 32 * |ws| <==> RESERVED in Range(a, n)
    ensures Bit(ws, RESERVED) ==> a + n < 32 * |ws|
  {
  }

  class Memory {
    const memMap: array<bv32>
    const ptable: seq<array<bv32>>
    const bssEnd: nat
    var img: seq<Image>
    ghost var own: seq<set<int>>

    /** The bitmaps agree with the pages that are taken and owned. */
    ghost predicate Maps()
      reads this, memMap, ptable
    {
      && memMap.Length == MEM_MAP_LEN && |own| == |ptable|
      && (forall p :: 0 <= p < |ptable| ==>
            ptable[p].Length == PTABLE_LEN && ptable[p] != memMap && On(ptable[p][..]) == own[p])
      && (forall p, q :: 0 <= p < q < |ptable| ==> ptable[p] != ptable[q])
      && Owned(On(memMap[..]), own, bssEnd)
    }

    ghost predicate Valid()
      reads this, memMap, ptable
    {
      Maps() && ImagesOk(own, img)
    }

    /** init_mem_table: the kernel's pages and the last one are taken, no process is there yet. */
    constructor (m: array<bv32>, tables: seq<array<bv32>>, bss: nat)
      requires m.Length == MEM_MAP_LEN && 1 <= bss <= RESERVED
      requires forall p :: 0 <= p < |tables| ==>
                 tables[p].Length == PTABLE_LEN && tables[p] != m && On(tables[p][..]) == {}
      requires forall p, q :: 0 <= p < q < |tables| ==> tables[p] != tables[q]
      modifies m
      ensures Valid() && memMap == m && ptable == tables && bssEnd == bss
      ensures Taken() == Range(0, bss) + {RESERVED}
      ensures img == seq(|tables|, p => Image(false, 0, 0, 0, 0, 0, 0))
    {
      hide On;
      hide Bit;
      hide Range;
      memMap := m;
      ptable := tables;
      bssEnd := bss;
      img := seq(|tables|, p => Image(false, 0, 0, 0, 0, 0, 0));
      own := seq(|tables|, p => {});
      new;
      ClearAll(m);
      ghost var ws := m[..];
      NoneOn(ws);
      var r := SetNbits(m, 0, bss);
      OnSet(ws, m[..], 0, bss);
      ws := m[..];
      r := SetBit(m, RESERVED);
      OnSet(ws, m[..], RESERVED, 1);
      assert Range(RESERVED, 1) == {RESERVED};
    }

    ghost function Taken(): set<int>
      reads memMap
    {
      On(memMap[..])
    }

    /** Where a run of free pages is: the highest one, or the lowest one behind the kernel. */
    method PeekFreePages(length: nat, high: bool) returns (r: int)
      requires Maps()
      ensures var n := length / PAGE_LEN;
              if r >= 0 then
                && n > 0 && FreeRun(Taken(), r, n) && bssEnd <= r && r + n <= RESERVED
                && forall a :: FreeRun(Taken(), a, n) ==> if high then a <= r else r <= a
              else n == 0 || forall a :: !FreeRun(Taken(), a, n)
    {
      hide On;
      hide Bit;
      hide Range;
      var num := length / PAGE_LEN;
      if high {
        r := SearchReverse(memMap, num);
      } else {
        r := SearchFrom(memMap, bssEnd, num);
      }
      RunsAreClear(memMap[..], num);
      NoWholeRun(Taken(), own, bssEnd, num);
    }

    /** Pages for the kernel; length is a whole number of pages. */
    method GetFreePages(length: nat, high: bool) returns (addr: int)
      requires Maps() && length > 0 && length % PAGE_LEN == 0
      modifies memMap
      ensures Maps() && addr % PAGE_LEN == 0
      ensures var n := length / PAGE_LEN; var was := old(Taken());
              if addr == NULL then memMap[..] == old(memMap[..]) && forall a :: !FreeRun(was, a, n)
              else
                && addr > 0 && FreeRun(was, addr / PAGE_LEN, n) && bssEnd <= addr / PAGE_LEN
                   && addr / PAGE_LEN + n <= RESERVED
                && Taken() == was + PagesOf(addr, length)
                && forall a :: FreeRun(was, a, n) ==> if high then a <= addr / PAGE_LEN else addr / PAGE_LEN <= a
    {
      hide On;
      hide Bit;
      hide Range;
      RoundingAgrees(length);
      var num := NumPages(length);
      var nstart := PeekFreePages(length, high);
      if nstart >= 0 {
        ghost var ws := memMap[..];
        KernelTook(Taken(), own, bssEnd, Range(nstart, num));
        var r := SetNbits(memMap, nstart, num);
        assert r == 0;
        OnSet(ws, memMap[..], nstart, num);
        return nstart * PAGE_LEN;
      }
      assert Taken() == old(Taken());
      return NULL;
    }

    method ReleasePages(page: nat, len: nat) returns (r: int)
      requires memMap.Length == MEM_MAP_LEN
      modifies memMap
      ensures if page % PAGE_LEN != 0 || page / PAGE_LEN + len / PAGE_LEN >= NPAGES then
                r == -EINVAL && memMap[..] == old(memMap[..])
              else r == 0 && Taken() == old(Taken()) - PagesOf(page, len)
      ensures old(Maps()) && r == 0 && Unowned(PagesOf(page, len)) ==> Maps()
    {
      hide On;
      hide Bit;
      hide Range;
      if page % PAGE_LEN != 0 {
        return -EINVAL;
      }
      ghost var ws := memMap[..];
      ghost var sound := Maps() && Unowned(PagesOf(page, len));
      if sound {
        KernelGave(Taken(), own, bssEnd, PagesOf(page, len));
      }
      r := ClearNbits(memMap, page / PAGE_LEN, len / PAGE_LEN);
      if r == 0 {
        OnCleared(ws, memMap[..], page / PAGE_LEN, len / PAGE_LEN);
      }
    }

    /** Pages behind the kernel that belong to no process. */
    ghost predicate Unowned(r: set<int>)
      reads this
    {
      r <= Range(bssEnd, RESERVED - bssEnd) && forall p :: 0 <= p < |own| ==> own[p] !! r
    }

    /** Let process p reach the pages of a run that it has just been given. */
    method Grant(p: nat, index: nat, num: nat) returns (r: int)
      requires p < |ptable| == |own| && ptable[p].Length == PTABLE_LEN && On(ptable[p][..]) == own[p]
      requires index + num <= RESERVED
      modifies ptable[p], `own
      ensures r == 0 && own == old(own)[p := old(own)[p] + Range(index, num)] && On(ptable[p][..]) == own[p]
    {
      hide On;
      hide Bit;
      hide Range;
      ghost var ws := ptable[p][..];
      r := SetNbits(ptable[p], index, num);
      OnSet(ws, ptable[p][..], index, num);
      own := own[p := own[p] + Range(index, num)];
    }

    method UserGetFreePages(p: nat, length: nat, high: bool) returns (addr: int)
      requires Maps() && p < |ptable| && length > 0 && length % PAGE_LEN == 0
      modifies memMap, ptable[p], `own
      ensures Maps() && addr % PAGE_LEN == 0
      ensures var n := length / PAGE_LEN; var was := old(Taken());
              if addr == NULL then Taken() == was && own == old(own) && forall a :: !FreeRun(was, a, n)
              else
                && addr > 0 && FreeRun(was, addr / PAGE_LEN, n) && bssEnd <= addr / PAGE_LEN
                   && addr / PAGE_LEN + n <= RESERVED
                && Taken() == was + PagesOf(addr, length) && own == old(own)[p := old(own)[p] + PagesOf(addr, length)]
                && forall a :: FreeRun(was, a, n) ==> if high then a <= addr / PAGE_LEN else addr / PAGE_LEN <= a
    {
      hide On;
      hide Bit;
      hide Range;
      addr := GetFreePages(length, high);
      if addr == NULL {
        return;
      }
      RoundingAgrees(length);
      Took(old(Taken()), own, bssEnd, p, addr / PAGE_LEN, length / PAGE_LEN);
      var r := Grant(p, addr / PAGE_LEN, NumPages(length));
    }

    /** The reserved page stops the walk before it leaves the map. */
    method IsPagesFreeFrom(addr: nat, size: nat) returns (free: bool)
      requires Maps() && addr / PAGE_LEN <= RESERVED && size > 0
      ensures free <==> FreeRun(Taken(), addr / PAGE_LEN, NumPages(size))
    {
      hide Range;
      var paged, num := addr / PAGE_LEN, NumPages(size);
      var i := 0;
      while i < num
        invariant 0 <= i <= num && paged == addr / PAGE_LEN + i && paged <= RESERVED
        invariant forall k :: addr / PAGE_LEN <= k < paged ==> k !in Taken()
      {
        var on := IsBitOn(memMap, paged);
        if on {
          assert paged in Range(addr / PAGE_LEN, num);
          return false;
        }
        i := i + 1;
        paged := paged + 1;
      }
      return true;
    }

    method UserGetFreePagesFrom(p: nat, addr: nat, size: nat) returns (err: int)
      requires Maps() && p < |ptable| && addr / PAGE_LEN <= RESERVED && size > 0
      modifies memMap, ptable[p], `own
      ensures Maps()
      ensures var a, n := addr / PAGE_LEN, NumPages(size);
              if FreeRun(old(Taken()), a, n) then
                && err == 0 && bssEnd <= a && a + n <= RESERVED
                && Taken() == old(Taken()) + Range(a, n) && own == old(own)[p := old(own)[p] + Range(a, n)]
              else err == -ENOMEM && memMap[..] == old(memMap[..]) && ptable[p][..] == old(ptable[p][..])
                   && own == old(own)
    {
      hide On;
      hide Bit;
      hide Range;
      var free := IsPagesFreeFrom(addr, size);
      if !free {
        return -ENOMEM;
      }
      var a, n := addr / PAGE_LEN, NumPages(size);
      FreeInside(Taken(), own, bssEnd, a, n);
      Took(Taken(), own, bssEnd, p, a, n);
      ghost var ws := memMap[..];
      err := SetNbits(memMap, a, n);
      OnSet(ws, memMap[..], a, n);
      err := Grant(p, a, n);
    }

    // ----- the heap break -----

    /** Whether a change of the break of process p by size can be made, in the pages taken so far. */
    ghost predicate CanMove(p: nat, size: int)
      requires p < |img|
      reads this, memMap
    {
      if size < 0 then img[p].heapBreak + size >= img[p].heapTop
      else Request(img[p], size) > 0
           ==> FreeRun(Taken(), (img[p].heapBottom + 1) / PAGE_LEN, NumPages(Request(img[p], size)))
    }

    method SysSbrk(p: nat, size: int) returns (brk: int)
      requires Valid() && p < |img| && img[p].live
      modifies memMap, ptable[p], `own, `img
      ensures Valid()
      ensures if old(CanMove(p, size)) then img == old(img)[p := Moved(old(img)[p], size)] && brk == img[p].heapBreak
              else brk == NULL && img == old(img) && own == old(own) && Taken() == old(Taken())
      ensures var i := old(img)[p]; var r := Range((i.heapBottom + 1) / PAGE_LEN, NumPages(Request(i, size)));
              old(CanMove(p, size)) ==>
                if size > 0 && Request(i, size) > 0
                then r !! old(Taken()) && Taken() == old(Taken()) + r && own == old(own)[p := old(own)[p] + r]
                else Taken() == old(Taken()) && own == old(own)
    {
      hide On;
      hide Bit;
      hide Range;
      hide Owned;
      var i := img[p];
      assert OwnerOk(i, own[p]);
      if size == 0 {
        MovedInside(i, own[p], size);
        assert Moved(i, 0) == i;
        assert img[p := i] == img;
        return i.heapBreak;
      }
      if size < 0 {
        if i.heapBreak + size >= i.heapTop {
          MovedInside(i, own[p], size);
          img := img[p := i.(heapBreak := i.heapBreak + size)];
          return img[p].heapBreak;
        }
        return NULL;
      }
      var residual := i.heapBottom - i.heapBreak;
      if residual >= size {
        MovedInside(i, own[p], size);
        img := img[p := i.(heapBreak := i.heapBreak + size)];
        return img[p].heapBreak;
      }
      brk := GrowBeyond(p, size, size - residual);
    }

    /** The break moves beyond the pages that the process has, if those behind them are free. */
    method GrowBeyond(p: nat, size: int, requestSize: int) returns (brk: int)
      requires Valid() && p < |img| && img[p].live && size > 0 && requestSize == Request(img[p], size) > 0
      modifies memMap, ptable[p], `own, `img
      ensures Valid()
      ensures var i := old(img)[p]; var a, n := (i.heapBottom + 1) / PAGE_LEN, NumPages(requestSize);
              if FreeRun(old(Taken()), a, n) then
                && img == old(img)[p := Moved(i, size)] && brk == img[p].heapBreak && Range(a, n) !! old(Taken())
                && Taken() == old(Taken()) + Range(a, n) && own == old(own)[p := old(own)[p] + Range(a, n)]
              else brk == NULL && img == old(img) && own == old(own) && Taken() == old(Taken())
    {
      hide On;
      hide Bit;
      hide Range;
      hide Owned;
      var i := img[p];
      assert OwnerOk(i, own[p]);
      var nextPage := i.heapBottom + 1;
      BottomInside(Taken(), own, bssEnd, p, i);
      var err := UserGetFreePagesFrom(p, nextPage, requestSize);
      if err != 0 {
        return NULL;
      }
      OwnIsTaken(old(Taken()), old(own), bssEnd, p);
      MovedBeyond(i, old(own)[p], size);
      img := img[p := i.(heapBreak := i.heapBreak + size, heapBottom := i.heapBottom + AlignPage(requestSize))];
      return img[p].heapBreak;
    }

    /** brk to a physical address: 0, or an error that leaves the break where it was. */
    method DoBrk(p: nat, addr: nat) returns (r: int)
      requires Valid() && p < |img| && img[p].live
      modifies memMap, ptable[p], `own, `img
      ensures Valid()
      ensures var size := addr - old(img)[p].heapBreak;
              if old(CanMove(p, size)) then
                r == 0 && img == old(img)[p := Moved(old(img)[p], size)] && img[p].heapBreak == addr
              else r == (if size < 0 then -EINVAL else -ENOMEM) && img == old(img) && own == old(own)
                   && Taken() == old(Taken())
      ensures var i := old(img)[p]; var size := addr - i.heapBreak;
              var got := Range((i.heapBottom + 1) / PAGE_LEN, NumPages(Request(i, size)));
              old(CanMove(p, size)) ==>
                if size > 0 && Request(i, size) > 0
                then got !! old(Taken()) && Taken() == old(Taken()) + got && own == old(own)[p := old(own)[p] + got]
                else Taken() == old(Taken()) && own == old(own)
    {
      hide On;
      hide Bit;
      hide Range;
      hide Owned;
      assert OwnerOk(img[p], own[p]);
      if addr < img[p].heapBreak {
        if addr < img[p].heapTop {
          return -EINVAL;
        }
        MovedInside(img[p], own[p], addr - img[p].heapBreak);
        img := img[p := img[p].(heapBreak := addr)];
        return 0;
      }
      var brk := SysSbrk(p, addr - img[p].heapBreak);
      if brk == NULL {
        return -ENOMEM;
      }
      return 0;
    }

    // ----- images -----

    /** A process gives back pages of its own. */
    method UserReleasePages(p: nat, page: nat, len: nat) returns (r: int)
      requires Maps() && p < |ptable| && page % PAGE_LEN == 0 && PagesOf(page, len) <= own[p] && len >= PAGE_LEN
      modifies memMap, ptable[p], `own
      ensures Maps() && r == 0
      ensures Taken() == old(Taken()) - PagesOf(page, len) && own == old(own)[p := old(own)[p] - PagesOf(page, len)]
    {
      hide On;
      hide Bit;
      hide Range;
      RangeInside(Taken(), own, bssEnd, p, page / PAGE_LEN, len / PAGE_LEN);
      Gave(Taken(), own, bssEnd, p, PagesOf(page, len));
      r := ReleasePages(page, len);
      ghost var ws := ptable[p][..];
      r := ClearNbits(ptable[p], page / PAGE_LEN, len / PAGE_LEN);
      OnCleared(ws, ptable[p][..], page / PAGE_LEN, len / PAGE_LEN);
      own := own[p := own[p] - PagesOf(page, len)];
    }

    /** Everything a process owns becomes free again. */
    method ReleaseProcMem(p: nat) returns (r: int)
      requires Valid() && p < |img| && img[p].live
      modifies memMap, ptable[p], `own, `img
      ensures Valid() && r == 0 && img == old(img)[p := old(img)[p].(live := false)]
      ensures Taken() == old(Taken()) - old(own)[p] && own == old(own)[p := {}]
    {
      hide On;
      hide Bit;
      hide Range;
      hide Owned;
      ghost var i := img[p];
      assert OwnerOk(i, own[p]);
      r := UserReleasePages(p, img[p].stackTop, img[p].stackSize);
      r := UserReleasePages(p, img[p].memStart, img[p].heapBottom + 1 - img[p].memStart);
      assert own[p] == {};
      img := img[p := img[p].(live := false)];
    }

    /**
     The memory of a new image, its stack allocated without looking at the
     result: enough pages in one run for image and stack together are enough.
     */
    method AllocMem(p: nat, size: nat) returns (r: int)
      requires Valid() && p < |img| && !img[p].live
      requires HasRun(Taken(), (AlignPage(size) + USER_HEAP_SIZE + USER_STACK_SIZE) / PAGE_LEN)
      modifies memMap, ptable[p], `own, `img
      ensures Valid() && r == 0 && img == old(img)[p := img[p]] && img[p].live
      ensures img[p].heapBreak == img[p].heapTop == img[p].memStart + size
      ensures own[p] !! old(Taken()) && Taken() == old(Taken()) + own[p]
    {
      hide On;
      hide Bit;
      hide Range;
      hide Owned;
      assert OwnerOk(img[p], own[p]);
      var tdAligned := AlignPage(size);
      var procLen := tdAligned + USER_HEAP_SIZE;
      ghost var a0 :| FreeRun(Taken(), a0, (procLen + USER_STACK_SIZE) / PAGE_LEN);
      ghost var n := procLen / PAGE_LEN;
      FreePrefix(Taken(), a0, n, 1);
      var memStart := UserGetFreePages(p, procLen, false);
      FreeSuffix(old(Taken()), a0, n, 1, memStart / PAGE_LEN);
      var stackTop := UserGetFreePages(p, USER_STACK_SIZE, true);
      ghost var own1 := own[p];
      var heapTop := memStart + size;
      var heapBottom := heapTop + USER_HEAP_SIZE + (tdAligned - size) - 1;
      img := img[p := Image(true, memStart, heapTop, heapTop, heapBottom, stackTop, USER_STACK_SIZE)];
      assert heapBottom + 1 - memStart == procLen && (heapBottom + 1) % PAGE_LEN == 0;
      assert own[p] == PagesOf(memStart, procLen) + PagesOf(stackTop, USER_STACK_SIZE);
      assert ImageOk(img[p], own[p]);
      return 0;
    }

    /** What exec does with memory: look for room first, then let the old image go and make the new one. */
    method Exec(p: nat, size: nat) returns (r: int)
      requires Valid() && p < |img| && img[p].live
      modifies memMap, ptable[p], `own, `img
      ensures Valid() && img[p].live
      ensures r == if HasRun(old(Taken()), (AlignPage(size) + USER_HEAP_SIZE + USER_STACK_SIZE) / PAGE_LEN) then 0
              else -ENOMEM
      ensures if r == 0 then img[p].heapBreak == img[p].heapTop == img[p].memStart + size
              else img == old(img) && own == old(own) && Taken() == old(Taken())
      ensures Taken() == old(Taken()) - old(own)[p] + own[p]
    {
      hide On;
      hide Bit;
      hide Range;
      hide Owned;
      OwnIsTaken(Taken(), own, bssEnd, p);
      var total := AlignPage(size) + USER_HEAP_SIZE + USER_STACK_SIZE;
      assert total / PAGE_LEN > 0;
      var found := PeekFreePages(total, false);
      if found < 0 {
        assert Taken() == old(Taken());
        return -ENOMEM;
      }
      r := ReleaseProcMem(p);
      assert FreeRun(Taken(), found, total / PAGE_LEN);
      r := AllocMem(p, size);
    }
  }
}
