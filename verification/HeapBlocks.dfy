/**
 The user heap as the list of blocks that malloc and free maintain: what one
 call makes of the list, and what holds of it over every run of calls.
 */
module HeapBlocks {

  /** A block: a header of five words at address at, then size words of payload. */
  datatype Block = Block(at: nat, size: nat, free: bool)

  const HEADER := 5

  function Ptr(b: Block): nat {
    b.at + HEADER
  }

  function End(b: Block): nat {
    b.at + HEADER + b.size
  }

  // ----- what malloc and free do to the list -----

  function Align4(x: nat): (s: nat)
    requires x > 0
    ensures x <= s < x + 4 && s % 4 == 0
  {
    (x - 1) / 4 * 4 + 4
  }

  predicate Fits(b: Block, s: nat) {
    b.free && b.size >= s
  }

  /** The first free block that is large enough, or |bs|. */
  function FirstFit(bs: seq<Block>, s: nat): (k: nat)
    ensures k <= |bs| && (k < |bs| ==> Fits(bs[k], s))
    ensures forall i :: 0 <= i < k ==> !Fits(bs[i], s)
  {
    if bs == [] || Fits(bs[0], s) then 0 else 1 + FirstFit(bs[1..], s)
  }

  /** A block cut in two, both parts as free as it was or the second free. */
  function Split(b: Block, s: nat): seq<Block>
    requires s + HEADER <= b.size
  {
    [b.(size := s), Block(b.at + HEADER + s, b.size - s - HEADER, true)]
  }

  /** What is left of a free block when s words of it are taken. */
  function Take(b: Block, s: nat): seq<Block>
    requires s <= b.size
  {
    if b.size - s >= HEADER + 4 then Split(b.(free := false), s) else [b.(free := false)]
  }

  function Malloc(bs: seq<Block>, brk: nat, s: nat): seq<Block> {
    var k := FirstFit(bs, s);
    if k < |bs| then bs[..k] + Take(bs[k], s) + bs[k + 1..] else bs + [Block(brk, s, false)]
  }

  function MallocAt(bs: seq<Block>, brk: nat, s: nat): nat {
    var k := FirstFit(bs, s);
    if k < |bs| then Ptr(bs[k]) else brk + HEADER
  }

  function MallocBrk(bs: seq<Block>, brk: nat, s: nat): nat {
    if FirstFit(bs, s) < |bs| then brk else brk + HEADER + s
  }

  function Joined(b: Block, c: Block): Block {
    b.(size := b.size + HEADER + c.size)
  }

  /** A block that is becoming free joins the block after it, if that one is free. */
  function JoinNext(b: Block, c: seq<Block>): seq<Block> {
    if c != [] && c[0].free then [Joined(b, c[0])] + c[1..] else [b] + c
  }

  /** The list with block k freed: joined with the block before it and then with the one after it. */
  function Free(bs: seq<Block>, k: nat): seq<Block>
    requires k < |bs|
  {
    var b := bs[k].(free := true);
    if k > 0 && bs[k - 1].free then bs[..k - 1] + JoinNext(Joined(bs[k - 1], b), bs[k + 1..])
    else bs[..k] + JoinNext(b, bs[k + 1..])
  }

  // ----- invariants of the list -----

  /** The blocks fill the words from x up to y, without a gap. */
  predicate Tiled(bs: seq<Block>, x: nat, y: nat) {
    if bs == [] then x == y else bs[0].at == x && Tiled(bs[1..], End(bs[0]), y)
  }

  /** No two neighbours are both free; before says whether what comes before the list is free. */
  predicate Calm(bs: seq<Block>, before: bool) {
    bs == [] || (!(before && bs[0].free) && Calm(bs[1..], bs[0].free))
  }

  function LastFree(bs: seq<Block>, before: bool): bool {
    if bs == [] then before else bs[|bs| - 1].free
  }

  /** The payloads in use: their addresses and sizes. */
  function Used(bs: seq<Block>): map<nat, nat> {
    if bs == [] then map[] else UsedIn(bs[0]) + Used(bs[1..])
  }

  function UsedIn(b: Block): map<nat, nat> {
    if b.free then map[] else map[Ptr(b) := b.size]
  }

  lemma {:induction false} TiledCat(a: seq<Block>, b: seq<Block>, x: nat, y: nat, z: nat)
    requires Tiled(a, x, y) && Tiled(b, y, z)
    ensures Tiled(a + b, x, z)
    decreases |a|
  {
    if a == [] {
      assert a + b == b;
    } else {
      assert (a + b)[1..] == a[1..] + b;
      TiledCat(a[1..], b, End(a[0]), y, z);
    }
  }

  lemma {:induction false} TiledSplit(a: seq<Block>, b: seq<Block>, x: nat, z: nat) returns (y: nat)
    requires Tiled(a + b, x, z)
    ensures Tiled(a, x, y) && Tiled(b, y, z) && x <= y <= z
    ensures b != [] ==> y == b[0].at
    decreases |a|
  {
    if a == [] {
      assert a + b == b;
      y := x;
      TiledGrows(b, x, z);
    } else {
      assert (a + b)[1..] == a[1..] + b;
      y := TiledSplit(a[1..], b, End(a[0]), z);
    }
  }

  lemma {:induction false} TiledGrows(bs: seq<Block>, x: nat, y: nat)
    requires Tiled(bs, x, y)
    ensures x <= y
    decreases |bs|
  {
    if bs != [] {
      TiledGrows(bs[1..], End(bs[0]), y);
    }
  }

  lemma {:induction false} CalmCat(a: seq<Block>, b: seq<Block>, x: bool)
    ensures Calm(a + b, x) <==> Calm(a, x) && Calm(b, LastFree(a, x))
    decreases |a|
  {
    if a == [] {
      assert a + b == b;
    } else {
      assert (a + b)[1..] == a[1..] + b;
      CalmCat(a[1..], b, a[0].free);
    }
  }

  lemma MergeAssoc(a: map<nat, nat>, b: map<nat, nat>, c: map<nat, nat>)
    ensures (a + b) + c == a + (b + c)
  {
  }

  lemma {:induction false} UsedCat(a: seq<Block>, b: seq<Block>)
    ensures Used(a + b) == Used(a) + Used(b)
    decreases |a|
  {
    if a == [] {
      assert a + b == b;
    } else {
      assert (a + b)[1..] == a[1..] + b;
      UsedCat(a[1..], b);
      MergeAssoc(UsedIn(a[0]), Used(a[1..]), Used(b));
    }
  }

  lemma {:induction false} UsedBetween(bs: seq<Block>, x: nat, y: nat)
    requires Tiled(bs, x, y)
    ensures forall p :: p in Used(bs) ==> x < p && p + Used(bs)[p] <= y
    decreases |bs|
  {
    if bs != [] {
      UsedBetween(bs[1..], End(bs[0]), y);
      TiledGrows(bs[1..], End(bs[0]), y);
    }
  }

  // ----- one call -----

  /** live: the pointers handed out and not yet freed, with the sizes asked for. */
  datatype Heap = Heap(bs: seq<Block>, brk: nat, live: map<nat, nat>)

  /**
   The blocks tile the heap, no two neighbours are free, and the blocks in use
   are the live ones, each as large as was asked for, rounded up, or larger by
   less than a block could be made of.
   */
  ghost predicate Ok(h: Heap, start: nat) {
    && Tiled(h.bs, start, h.brk) && Calm(h.bs, false)
    && h.live.Keys == Used(h.bs).Keys
    && forall p :: p in h.live ==> 0 < h.live[p] && Align4(h.live[p]) <= Used(h.bs)[p] < Align4(h.live[p]) + HEADER + 4
  }

  /** A list around one block, and its parts. */
  lemma Around(a: seq<Block>, b: seq<Block>, c: seq<Block>, x: nat, z: nat) returns (y: nat, y': nat)
    requires Tiled(a + b + c, x, z) && Calm(a + b + c, false)
    ensures Tiled(a, x, y) && Tiled(b, y, y') && Tiled(c, y', z) && x <= y <= y' <= z
    ensures b != [] ==> y == b[0].at
    ensures Calm(a, false) && Calm(b, LastFree(a, false)) && Calm(c, LastFree(a + b, false))
    ensures Used(a + b + c) == Used(a) + Used(b) + Used(c)
  {
    assert a + b + c == a + (b + c);
    y := TiledSplit(a, b + c, x, z);
    y' := TiledSplit(b, c, y, z);
    CalmCat(a + b, c, false);
    CalmCat(a, b, false);
    UsedCat(a + b, c);
    UsedCat(a, b);
  }

  lemma Together(a: seq<Block>, b: seq<Block>, c: seq<Block>, x: nat, y: nat, y': nat, z: nat)
    requires Tiled(a, x, y) && Tiled(b, y, y') && Tiled(c, y', z)
    requires Calm(a, false) && Calm(b, LastFree(a, false)) && Calm(c, LastFree(a + b, false))
    ensures Tiled(a + b + c, x, z) && Calm(a + b + c, false)
    ensures Used(a + b + c) == Used(a) + Used(b) + Used(c)
  {
    TiledCat(a, b, x, y, y');
    TiledCat(a + b, c, x, y', z);
    CalmCat(a, b, false);
    CalmCat(a + b, c, false);
    UsedCat(a, b);
    UsedCat(a + b, c);
  }

  lemma TakeOk(b: Block, s: nat, before: bool)
    requires Fits(b, s)
    ensures Tiled(Take(b, s), b.at, End(b)) && Calm(Take(b, s), before)
    ensures exists n :: s <= n < s + HEADER + 4 && Used(Take(b, s)) == map[Ptr(b) := n]
  {
    if b.size - s >= HEADER + 4 {
      var r := Take(b, s)[1];
      assert Take(b, s)[1..] == [r];
      assert Tiled([r], r.at, End(b));
      assert Calm([r], false);
      assert Used([r]) == map[];
      assert Used(Take(b, s)) == map[Ptr(b) := s];
    } else {
      assert Used(Take(b, s)) == map[Ptr(b) := b.size];
    }
  }

  /** A call of malloc(size), with the size rounded up to s. */
  function MallocStep(h: Heap, size: nat): Heap
    requires size > 0
  {
    var s := Align4(size);
    Heap(Malloc(h.bs, h.brk, s), MallocBrk(h.bs, h.brk, s), h.live[MallocAt(h.bs, h.brk, s) := size])
  }

  lemma CalmLess(c: seq<Block>, before: bool)
    requires Calm(c, true)
    ensures Calm(c, before)
  {
  }

  /** Taking from the free block b, between a and c. */
  lemma Taken(a: seq<Block>, b: Block, c: seq<Block>, s: nat, x: nat, z: nat)
    requires Tiled(a + [b] + c, x, z) && Calm(a + [b] + c, false) && Fits(b, s)
    ensures var bs := a + Take(b, s) + c;
            && Tiled(bs, x, z) && Calm(bs, false)
            && Used(bs).Keys == Used(a + [b] + c).Keys + {Ptr(b)} && s <= Used(bs)[Ptr(b)] < s + HEADER + 4
            && Ptr(b) !in Used(a + [b] + c)
            && forall p :: p in Used(a + [b] + c) ==> Used(bs)[p] == Used(a + [b] + c)[p]
  {
    var y, y' := Around(a, [b], c, x, z);
    assert y' == End(b) && Used([b]) == map[];
    TakeOk(b, s, LastFree(a, false));
    assert LastFree(a + [b], false);
    CalmLess(c, LastFree(a + Take(b, s), false));
    TakenUsed(a, b, c, s, x, y, y', z);
  }

  lemma TakenUsed(a: seq<Block>, b: Block, c: seq<Block>, s: nat, x: nat, y: nat, y': nat, z: nat)
    requires Tiled(a, x, y) && Tiled(c, y', z) && y == b.at && y' == End(b) && Fits(b, s)
    requires Calm(a, false) && Calm(c, LastFree(a + Take(b, s), false))
    requires Used(a + [b] + c) == Used(a) + map[] + Used(c)
    ensures var bs := a + Take(b, s) + c;
            && Tiled(bs, x, z) && Calm(bs, false)
            && Used(bs).Keys == Used(a + [b] + c).Keys + {Ptr(b)} && s <= Used(bs)[Ptr(b)] < s + HEADER + 4
            && Ptr(b) !in Used(a + [b] + c)
            && forall p :: p in Used(a + [b] + c) ==> Used(bs)[p] == Used(a + [b] + c)[p]
  {
    hide Tiled;
    hide Calm;
    hide Used;
    hide Take;
    TakeOk(b, s, LastFree(a, false));
    Together(a, Take(b, s), c, x, y, y', z);
    UsedBetween(a, x, y);
    UsedBetween(c, y', z);
  }

  lemma MallocOk(h: Heap, size: nat, start: nat)
    requires Ok(h, start) && size > 0
    ensures Ok(MallocStep(h, size), start)
    ensures MallocAt(h.bs, h.brk, Align4(size)) !in h.live
  {
    hide Tiled;
    hide Calm;
    hide Used;
    hide Take;
    var s := Align4(size);
    if FirstFit(h.bs, s) < |h.bs| {
      MallocFits(h, size, start);
    } else {
      Appended(h.bs, Block(h.brk, s, false), start);
    }
  }

  lemma MallocFits(h: Heap, size: nat, start: nat)
    requires Ok(h, start) && size > 0 && FirstFit(h.bs, Align4(size)) < |h.bs|
    ensures Ok(MallocStep(h, size), start)
    ensures MallocAt(h.bs, h.brk, Align4(size)) !in h.live
  {
    hide Tiled;
    hide Calm;
    hide Used;
    hide Take;
    var s := Align4(size);
    var k := FirstFit(h.bs, s);
    assert h.bs == h.bs[..k] + [h.bs[k]] + h.bs[k + 1..];
    Taken(h.bs[..k], h.bs[k], h.bs[k + 1..], s, start, h.brk);
  }

  /** A new block at the end of the heap. */
  lemma Appended(bs: seq<Block>, b: Block, x: nat)
    requires Tiled(bs, x, b.at) && Calm(bs, false) && !b.free
    ensures Tiled(bs + [b], x, End(b)) && Calm(bs + [b], false)
    ensures Ptr(b) !in Used(bs) && Used(bs + [b]) == Used(bs)[Ptr(b) := b.size]
  {
    assert Tiled([b], b.at, End(b));
    TiledCat(bs, [b], x, b.at, End(b));
    CalmCat(bs, [b], false);
    UsedCat(bs, [b]);
    UsedBetween(bs, x, b.at);
  }

  /** The block in use whose payload is at p. */
  function IndexOf(bs: seq<Block>, p: nat): (k: nat)
    requires p in Used(bs)
    ensures k < |bs| && !bs[k].free && Ptr(bs[k]) == p
  {
    if !bs[0].free && Ptr(bs[0]) == p then 0 else 1 + IndexOf(bs[1..], p)
  }

  function FreeStep(h: Heap, p: nat): Heap
    requires p in Used(h.bs)
  {
    Heap(Free(h.bs, IndexOf(h.bs, p)), h.brk, h.live - {p})
  }

  /** Blocks m with one payload in use, p, give way to one free block f. */
  lemma Emptied(a: seq<Block>, m: seq<Block>, f: Block, c: seq<Block>, p: nat, n: nat, x: nat, z: nat)
    requires Tiled(a + m + c, x, z) && Calm(a + m + c, false)
    requires m != [] && m[0].at == f.at && Tiled(m, f.at, End(f)) && Used(m) == map[p := n]
    requires f.free && !LastFree(a, false) && (c == [] || !c[0].free)
    ensures var bs := a + [f] + c;
            && Tiled(bs, x, z) && Calm(bs, false) && p in Used(a + m + c)
            && Used(bs) == Used(a + m + c) - {p}
  {
    var y, y' := Around(a, m, c, x, z);
    TiledEnd(m, y, y', End(f));
    assert Tiled([f], y, y');
    assert Used([f]) == map[];
    Together(a, [f], c, x, y, y', z);
    UsedBetween(a, x, y);
    UsedBetween(m, y, y');
    UsedBetween(c, y', z);
    Minus(Used(a), Used(c), p, n);
  }

  lemma Minus(u: map<nat, nat>, v: map<nat, nat>, p: nat, n: nat)
    requires p !in u && p !in v
    ensures u + map[] + v == u + map[p := n] + v - {p}
  {
  }

  lemma {:induction false} TiledEnd(bs: seq<Block>, x: nat, y: nat, z: nat)
    requires Tiled(bs, x, y) && Tiled(bs, x, z)
    ensures y == z
    decreases |bs|
  {
    if bs != [] {
      TiledEnd(bs[1..], End(bs[0]), y, z);
    }
  }

  /** The free block e after m lies right behind it and before a block in use. */
  lemma Neighbour(a: seq<Block>, m: seq<Block>, e: Block, c: seq<Block>, y: nat, y': nat, x: nat, z: nat)
    requires Tiled(a + (m + [e]) + c, x, z) && Calm(a + (m + [e]) + c, false)
    requires m != [] && m[0].at == y && Tiled(m, y, y') && e.free
    ensures e.at == y' && Tiled(m + [e], y, End(e)) && Used(m + [e]) == Used(m)
    ensures c == [] || !c[0].free
  {
    hide Tiled;
    hide Calm;
    hide Used;
    var y1, y2 := Around(a, m + [e], c, x, z);
    var y3 := TiledSplit(m, [e], y1, y2);
    TiledEnd(m, y, y', y3);
    OneTile(e, y', y2);
    UsedCat(m, [e]);
    UsedOne(e);
    CalmHead(c);
  }

  lemma OneTile(b: Block, x: nat, y: nat)
    requires Tiled([b], x, y)
    ensures b.at == x && y == End(b)
  {
  }

  lemma CalmHead(c: seq<Block>)
    requires Calm(c, true)
    ensures c == [] || !c[0].free
  {
  }

  lemma JoinForm(a: seq<Block>, m: seq<Block>, f: Block, c: seq<Block>)
    ensures if c != [] && c[0].free then
              && a + m + c == a + (m + [c[0]]) + c[1..]
              && a + JoinNext(f, c) == a + [Joined(f, c[0])] + c[1..]
            else a + JoinNext(f, c) == a + [f] + c
  {
  }

  lemma FreedNext(a: seq<Block>, m: seq<Block>, f: Block, c: seq<Block>, p: nat, n: nat, x: nat, z: nat)
    requires Tiled(a + m + c, x, z) && Calm(a + m + c, false)
    requires m != [] && m[0].at == f.at && Tiled(m, f.at, End(f)) && Used(m) == map[p := n]
    requires f.free && !LastFree(a, false)
    ensures var bs := a + JoinNext(f, c);
            && Tiled(bs, x, z) && Calm(bs, false) && p in Used(a + m + c)
            && Used(bs) == Used(a + m + c) - {p}
  {
    hide Tiled;
    hide Calm;
    hide Used;
    hide JoinNext;
    JoinForm(a, m, f, c);
    if c != [] && c[0].free {
      var e, c' := c[0], c[1..];
      Neighbour(a, m, e, c', f.at, End(f), x, z);
      Emptied(a, m + [e], Joined(f, e), c', p, n, x, z);
    } else {
      Emptied(a, m, f, c, p, n, x, z);
    }
  }

  lemma FreeOk(h: Heap, p: nat, start: nat)
    requires Ok(h, start) && p in h.live
    ensures Ok(FreeStep(h, p), start)
  {
    hide Tiled;
    hide Calm;
    hide Used;
    hide IndexOf;
    var bs, k := h.bs, IndexOf(h.bs, p);
    var b, c := bs[k], bs[k + 1..];
    var f := b.(free := true);
    UsedOne(b);
    if k > 0 && bs[k - 1].free {
      var a, d := bs[..k - 1], bs[k - 1];
      assert bs == a + ([d] + [b]) + c;
      assert bs == a + ([d] + ([b] + c));
      NotBefore(a, d, [b] + c);
      FreedPair(a, d, b, c, start, h.brk);
      FreedNext(a, [d] + [b], Joined(d, f), c, p, b.size, start, h.brk);
    } else {
      var a := bs[..k];
      assert bs == a + [b] + c;
      FreedNext(a, [b], f, c, p, b.size, start, h.brk);
    }
  }

  lemma UsedOne(b: Block)
    ensures Tiled([b], b.at, End(b))
    ensures !b.free ==> Used([b]) == map[Ptr(b) := b.size]
    ensures b.free ==> Used([b]) == map[]
  {
  }

  lemma FreedPair(a: seq<Block>, d: Block, b: Block, c: seq<Block>, x: nat, z: nat)
    requires Tiled(a + ([d] + [b]) + c, x, z) && Calm(a + ([d] + [b]) + c, false)
    requires d.free && !b.free
    ensures b.at == End(d) && Tiled([d] + [b], d.at, End(b)) && Used([d] + [b]) == map[Ptr(b) := b.size]
  {
    var y, y' := Around(a, [d] + [b], c, x, z);
    var y2 := TiledSplit([d], [b], y, y');
    UsedCat([d], [b]);
    UsedOne(d);
    UsedOne(b);
    assert Tiled([b], y2, y');
    assert Tiled([d], y, y2);
  }

  lemma NotBefore(a: seq<Block>, d: Block, c: seq<Block>)
    requires Calm(a + ([d] + c), false) && d.free
    ensures !LastFree(a, false)
  {
    CalmCat(a, [d] + c, false);
  }

  // ----- whole runs -----

  datatype Call = MallocCall(size: nat) | FreeCall(p: nat)

  /** A run of calls, with sizes above zero and pointers that are live; others are passed over. */
  ghost function After(h: Heap, calls: seq<Call>, start: nat): (h': Heap)
    requires Ok(h, start)
    ensures Ok(h', start)
    decreases |calls|
  {
    if calls == [] then h
    else After(Next(h, calls[0], start), calls[1..], start)
  }

  ghost function Next(h: Heap, call: Call, start: nat): (h': Heap)
    requires Ok(h, start)
    ensures Ok(h', start)
  {
    match call
    case MallocCall(size) => if size > 0 then MallocOk(h, size, start); MallocStep(h, size) else h
    case FreeCall(p) => if p in h.live then FreeOk(h, p, start); FreeStep(h, p) else h
  }

  // ----- what this means -----

  /** Two live payloads share no word and lie inside the heap. */
  lemma {:induction false} Disjoint(bs: seq<Block>, x: nat, y: nat, p: nat, q: nat)
    requires Tiled(bs, x, y) && p in Used(bs) && q in Used(bs) && p != q
    ensures p + Used(bs)[p] <= q || q + Used(bs)[q] <= p
    decreases |bs|
  {
    var b, rest := bs[0], bs[1..];
    UsedBetween(rest, End(b), y);
    if p in Used(rest) && q in Used(rest) {
      Disjoint(rest, End(b), y, p, q);
    }
  }

  lemma LivePayloads(h: Heap, calls: seq<Call>, start: nat, p: nat, q: nat)
    requires Ok(h, start) && p in After(h, calls, start).live && q in After(h, calls, start).live && p != q
    ensures var h' := After(h, calls, start);
            && start + HEADER <= p && p + h'.live[p] <= h'.brk
            && (p + h'.live[p] <= q || q + h'.live[q] <= p)
            && Used(h'.bs)[p] < Align4(h'.live[p]) + HEADER + 4
  {
    var h' := After(h, calls, start);
    UsedBetween(h'.bs, start, h'.brk);
    Disjoint(h'.bs, start, h'.brk, p, q);
    PtrBounds(h'.bs, start, h'.brk, p);
  }

  lemma {:induction false} PtrBounds(bs: seq<Block>, x: nat, y: nat, p: nat)
    requires Tiled(bs, x, y) && p in Used(bs)
    ensures x + HEADER <= p
    decreases |bs|
  {
    if p in Used(bs[1..]) {
      PtrBounds(bs[1..], End(bs[0]), y, p);
    }
  }

  function Words(bs: seq<Block>): nat {
    if bs == [] then 0 else HEADER + bs[0].size + Words(bs[1..])
  }

  /** No word is lost: headers and payloads add up to the heap. */
  lemma {:induction false} Conserved(bs: seq<Block>, x: nat, y: nat)
    requires Tiled(bs, x, y)
    ensures Words(bs) == y - x
    decreases |bs|
  {
    if bs != [] {
      Conserved(bs[1..], End(bs[0]), y);
    }
  }

  /** When everything has been freed the heap is one free block. */
  lemma AllFreed(h: Heap, start: nat)
    requires Ok(h, start) && h.live == map[]
    ensures |h.bs| <= 1 && forall b :: b in h.bs ==> b.free && b.at == start && End(b) == h.brk
  {
    AllFree(h.bs);
    if |h.bs| > 1 {
      SecondUsed(h.bs);
      assert false;
    } else if |h.bs| == 1 {
      assert Tiled(h.bs[1..], End(h.bs[0]), h.brk);
    }
  }

  lemma SecondUsed(bs: seq<Block>)
    requires Calm(bs, false) && |bs| > 1 && bs[0].free
    ensures !bs[1].free
  {
  }

  lemma UsedFirst(bs: seq<Block>)
    requires bs != [] && !bs[0].free
    ensures Ptr(bs[0]) in Used(bs)
  {
  }

  lemma {:induction false} AllFree(bs: seq<Block>)
    requires Used(bs) == map[]
    ensures forall b :: b in bs ==> b.free
    decreases |bs|
  {
    if bs != [] {
      assert forall p :: p in UsedIn(bs[0]) || p in Used(bs[1..]) ==> p in Used(bs);
      if !bs[0].free {
        UsedFirst(bs);
        assert false;
      }
      assert Used(bs[1..]) == map[];
      AllFree(bs[1..]);
    }
  }

  /** The heap grows exactly when no free block is large enough for the rounded size. */
  lemma GrowsOnlyWhenFull(h: Heap, size: nat)
    requires size > 0
    ensures MallocStep(h, size).brk > h.brk <==> forall b :: b in h.bs && b.free ==> b.size < Align4(size)
  {
  }
}
