/**
 malloc and free on the words of memory: the list of blocks lives in headers
 that are linked both ways through the heap itself, and sbrk makes the memory
 longer. Each operation is proved to make the list of blocks that HeapBlocks
 says, and to leave every word of every live payload alone.
 */
module HeapList {
  import opened HeapBlocks

  /** Word 0 of memory is never part of the heap. */
  const NULL := 0

  // ----- the list in memory -----

  predicate Header(mem: seq<int>, b: Block, prev: int, next: int) {
    && Ptr(b) <= |mem|
    && mem[b.at] == b.size && mem[b.at + 1] == next && mem[b.at + 2] == prev
    && mem[b.at + 3] == (if b.free then 1 else 0) && mem[b.at + 4] == Ptr(b)
  }

  function First(bs: seq<Block>, otherwise: int): int {
    if bs == [] then otherwise else bs[0].at
  }

  function Last(bs: seq<Block>, otherwise: int): int {
    if bs == [] then otherwise else bs[|bs| - 1].at
  }

  /** The headers of the blocks, linked to each other, to prev before them and to next behind them. */
  predicate List(mem: seq<int>, bs: seq<Block>, prev: int, next: int) {
    bs == [] ||
    (Header(mem, bs[0], prev, First(bs[1..], next)) && List(mem, bs[1..], bs[0].at, next))
  }

  lemma {:induction false} ListCat(mem: seq<int>, a: seq<Block>, b: seq<Block>, prev: int, next: int)
    ensures List(mem, a + b, prev, next) <==> List(mem, a, prev, First(b, next)) && List(mem, b, Last(a, prev), next)
    decreases |a|
  {
    if a == [] {
      assert a + b == b;
    } else {
      assert (a + b)[1..] == a[1..] + b;
      ListCat(mem, a[1..], b, a[0].at, next);
    }
  }

  /** Nothing changed outside the words from lo up to hi. */
  predicate Same(mem: seq<int>, mem': seq<int>, lo: int, hi: int) {
    |mem| <= |mem'| && forall a :: 0 <= a < |mem| && !(lo <= a < hi) ==> mem'[a] == mem[a]
  }

  lemma {:induction false} ListKept(mem: seq<int>, mem': seq<int>, bs: seq<Block>, prev: int, next: int, x: nat, y: nat)
    requires List(mem, bs, prev, next) && Tiled(bs, x, y) && y <= |mem| <= |mem'|
    requires forall a :: x <= a < y ==> mem'[a] == mem[a]
    ensures List(mem', bs, prev, next)
    decreases |bs|
  {
    if bs != [] {
      TiledGrows(bs[1..], End(bs[0]), y);
      ListKept(mem, mem', bs[1..], bs[0].at, next, End(bs[0]), y);
    }
  }

  /** Linking a list to another block before it. */
  lemma NewPrev(mem: seq<int>, mem': seq<int>, bs: seq<Block>, prev: int, prev': int, next: int, x: nat, y: nat)
    requires List(mem, bs, prev, next) && Tiled(bs, x, y) && y <= |mem| <= |mem'|
    requires forall a :: x <= a < y && a != x + 2 ==> mem'[a] == mem[a]
    requires bs != [] ==> x + 2 < |mem'| && mem'[x + 2] == prev'
    ensures List(mem', bs, prev', next)
  {
    if bs != [] {
      TiledGrows(bs[1..], End(bs[0]), y);
      ListKept(mem, mem', bs[1..], bs[0].at, next, End(bs[0]), y);
    }
  }

  /** Linking the last block of a list to another block behind it. */
  lemma {:induction false} NewNext(mem: seq<int>, mem': seq<int>, bs: seq<Block>, prev: int, next: int, next': int,
                                   x: nat, y: nat)
    requires List(mem, bs, prev, next) && Tiled(bs, x, y) && y <= |mem| <= |mem'| && bs != []
    requires forall a :: x <= a < y && a != Last(bs, prev) + 1 ==> mem'[a] == mem[a]
    requires Last(bs, prev) + 1 < |mem'| && mem'[Last(bs, prev) + 1] == next'
    ensures List(mem', bs, prev, next')
    decreases |bs|
  {
    TiledGrows(bs[1..], End(bs[0]), y);
    if |bs| > 1 {
      LastBehind(bs[1..], End(bs[0]), y);
      NewNext(mem, mem', bs[1..], bs[0].at, next, next', End(bs[0]), y);
    } else {
      assert bs[1..] == [];
    }
  }

  lemma {:induction false} LastBehind(bs: seq<Block>, x: nat, y: nat)
    requires Tiled(bs, x, y) && bs != []
    ensures x <= bs[|bs| - 1].at && End(bs[|bs| - 1]) == y
    decreases |bs|
  {
    if |bs| > 1 {
      LastBehind(bs[1..], End(bs[0]), y);
    } else {
      assert bs[1..] == [];
    }
  }

  /** What the words say about blocks m of the list, which lie from y up to y'. */
  lemma Focus(mem: seq<int>, a: seq<Block>, m: seq<Block>, c: seq<Block>, x: nat, z: nat) returns (y: nat, y': nat)
    requires Tiled(a + m + c, x, z) && List(mem, a + m + c, NULL, NULL) && m != []
    ensures Tiled(a, x, y) && Tiled(m, y, y') && Tiled(c, y', z) && x <= y == m[0].at <= y' <= z
    ensures List(mem, a, NULL, y) && List(mem, c, Last(m, NULL), NULL)
    ensures List(mem, m, Last(a, NULL), First(c, NULL))
    ensures Used(a + m + c) == Used(a) + Used(m) + Used(c)
  {
    assert a + m + c == a + (m + c);
    y := TiledSplit(a, m + c, x, z);
    y' := TiledSplit(m, c, y, z);
    ListCat(mem, a, m + c, NULL, NULL);
    ListCat(mem, m, c, Last(a, NULL), NULL);
    UsedCat(a + m, c);
    UsedCat(a, m);
  }

  /** Other blocks m in the words from y up to y'; what follows is linked to the last of them. */
  lemma Replace(mem: seq<int>, mem': seq<int>, a: seq<Block>, m: seq<Block>, c: seq<Block>,
                q: int, x: nat, y: nat, y': nat, z: nat)
    requires Tiled(a, x, y) && Tiled(m, y, y') && Tiled(c, y', z) && z <= |mem| && m != [] && m[0].at == y
    requires List(mem, a, NULL, y) && List(mem, c, q, NULL)
    requires List(mem', m, Last(a, NULL), First(c, NULL))
    requires |mem| <= |mem'| && forall i :: 0 <= i < |mem| && !(y <= i < y') && i != y' + 2 ==> mem'[i] == mem[i]
    requires c != [] ==> y' + 2 < |mem'| && mem'[y' + 2] == Last(m, NULL)
    ensures Tiled(a + m + c, x, z) && List(mem', a + m + c, NULL, NULL)
  {
    hide List;
    hide Tiled;
    TiledGrows(a, x, y);
    TiledGrows(m, y, y');
    TiledGrows(c, y', z);
    ListKept(mem, mem', a, NULL, y, x, y);
    NewPrev(mem, mem', c, q, Last(m, NULL), NULL, y', z);
    Assemble(mem', a, m, c, x, y, y', z);
  }

  lemma Assemble(mem: seq<int>, a: seq<Block>, m: seq<Block>, c: seq<Block>, x: nat, y: nat, y': nat, z: nat)
    requires Tiled(a, x, y) && Tiled(m, y, y') && Tiled(c, y', z) && m != [] && m[0].at == y
    requires List(mem, a, NULL, y) && List(mem, m, Last(a, NULL), First(c, NULL)) && List(mem, c, Last(m, NULL), NULL)
    ensures Tiled(a + m + c, x, z) && List(mem, a + m + c, NULL, NULL)
  {
    hide List;
    hide Tiled;
    TiledCat(a, m, x, y, y');
    TiledCat(a + m, c, x, y', z);
    ListCat(mem, a, m, NULL, First(c, NULL));
    ListCat(mem, a + m, c, NULL, NULL);
  }

  /** Every word of every payload in u is as it was. */
  predicate Kept(mem: seq<int>, mem': seq<int>, u: map<nat, nat>) {
    |mem| <= |mem'| &&
    forall p, i {:trigger u[p], mem'[i]} :: p in u && p <= i < p + u[p] && i < |mem| ==> mem'[i] == mem[i]
  }

  /** Changes to blocks m and to the header behind them touch no payload before or behind. */
  lemma PayloadsKept(mem: seq<int>, mem': seq<int>, a: seq<Block>, c: seq<Block>, x: nat, y: nat, y': nat, z: nat)
    requires Tiled(a, x, y) && Tiled(c, y', z) && y <= y' && Same(mem, mem', y, y' + HEADER)
    ensures Kept(mem, mem', Used(a) + Used(c))
  {
    hide Used;
    hide Tiled;
    UsedBetween(a, x, y);
    forall p | p in Used(c) ensures y' + HEADER <= p {
      PtrBounds(c, y', z, p);
    }
  }

  lemma Cut(bs: seq<Block>, k: nat, n: nat)
    requires k + n <= |bs|
    ensures bs == bs[..k] + bs[k..k + n] + bs[k + n..]
  {
  }

  lemma One(mem: seq<int>, b: Block, prev: int, next: int)
    requires Header(mem, b, prev, next)
    ensures List(mem, [b], prev, next) && Tiled([b], b.at, End(b))
  {
  }

  lemma Two(mem: seq<int>, b: Block, c: Block, prev: int, next: int)
    requires Header(mem, b, prev, c.at) && Header(mem, c, b.at, next) && c.at == End(b)
    ensures List(mem, [b, c], prev, next) && Tiled([b, c], b.at, End(c))
  {
  }

  lemma OneBack(mem: seq<int>, b: Block, prev: int, next: int, y: nat)
    requires List(mem, [b], prev, next) && Tiled([b], b.at, y)
    ensures Header(mem, b, prev, next) && y == End(b)
  {
  }

  lemma TwoBack(mem: seq<int>, b: Block, c: Block, prev: int, next: int, y: nat)
    requires List(mem, [b, c], prev, next) && Tiled([b, c], b.at, y)
    ensures Header(mem, b, prev, c.at) && Header(mem, c, b.at, next) && c.at == End(b) && y == End(c)
  {
    assert [b, c][1..] == [c];
    OneBack(mem, c, b.at, next, y);
  }

  function PrevOf(bs: seq<Block>, k: nat): int
    requires k < |bs|
  {
    if k > 0 then bs[k - 1].at else NULL
  }

  function NextOf(bs: seq<Block>, k: nat): int
    requires k < |bs|
  {
    if k + 1 < |bs| then bs[k + 1].at else NULL
  }

  /** What memory holds at a block of the list. */
  lemma Look(mem: seq<int>, bs: seq<Block>, k: nat, x: nat, y: nat)
    requires List(mem, bs, NULL, NULL) && Tiled(bs, x, y) && k < |bs|
    ensures Header(mem, bs[k], PrevOf(bs, k), NextOf(bs, k)) && x <= bs[k].at && End(bs[k]) <= y
  {
    Cut(bs, k, 1);
    assert bs[k..k + 1] == [bs[k]];
    var lo, hi := Focus(mem, bs[..k], [bs[k]], bs[k + 1..], x, y);
    OneBack(mem, bs[k], Last(bs[..k], NULL), First(bs[k + 1..], NULL), hi);
  }

  /** The block behind block k begins where block k ends and is linked back to it. */
  lemma NextHeader(mem: seq<int>, bs: seq<Block>, k: nat, x: nat, y: nat)
    requires List(mem, bs, NULL, NULL) && Tiled(bs, x, y) && k + 1 < |bs|
    ensures bs[k + 1].at == End(bs[k]) && Header(mem, bs[k + 1], bs[k].at, NextOf(bs, k + 1))
  {
    Look(mem, bs, k + 1, x, y);
    Cut(bs, k, 2);
    assert bs[k..k + 2] == [bs[k], bs[k + 1]];
    var lo, hi := Focus(mem, bs[..k], [bs[k], bs[k + 1]], bs[k + 2..], x, y);
    TwoBack(mem, bs[k], bs[k + 1], Last(bs[..k], NULL), First(bs[k + 2..], NULL), hi);
  }

  /** The n blocks from k on give way to m in the same words. */
  lemma Swap(mem: seq<int>, mem': seq<int>, bs: seq<Block>, k: nat, n: nat, m: seq<Block>, x: nat, z: nat)
    requires List(mem, bs, NULL, NULL) && Tiled(bs, x, z) && z <= |mem| <= |mem'| && n > 0 && k + n <= |bs|
    requires m != [] && m[0].at == bs[k].at && Tiled(m, bs[k].at, End(bs[k + n - 1]))
    requires List(mem', m, PrevOf(bs, k), NextOf(bs, k + n - 1))
    requires forall i :: 0 <= i < |mem| && !(bs[k].at <= i < End(bs[k + n - 1])) && i != End(bs[k + n - 1]) + 2
               ==> mem'[i] == mem[i]
    requires k + n < |bs| ==> End(bs[k + n - 1]) + 2 < |mem'| && mem'[End(bs[k + n - 1]) + 2] == Last(m, NULL)
    ensures Tiled(bs[..k] + m + bs[k + n..], x, z) && List(mem', bs[..k] + m + bs[k + n..], NULL, NULL)
    ensures Kept(mem, mem', Used(bs[..k]) + Used(bs[k + n..]))
  {
    hide List;
    hide Tiled;
    hide Used;
    hide Kept;
    Cut(bs, k, n);
    var y, y' := Focus(mem, bs[..k], bs[k..k + n], bs[k + n..], x, z);
    LastBehind(bs[k..k + n], y, y');
    Replace(mem, mem', bs[..k], m, bs[k + n..], Last(bs[k..k + n], NULL), x, y, y', z);
    PayloadsKept(mem, mem', bs[..k], bs[k + n..], x, y, y', z);
  }

  lemma Extended(mem: seq<int>, mem': seq<int>, bs: seq<Block>, b: Block, x: nat)
    requires List(mem, bs, NULL, NULL) && Tiled(bs, x, b.at) && |mem| == b.at && |mem'| == End(b)
    requires Header(mem', b, Last(bs, NULL), NULL)
    requires forall i :: 0 <= i < |mem| && (bs == [] || i != Last(bs, NULL) + 1) ==> mem'[i] == mem[i]
    requires bs != [] ==> Last(bs, NULL) + 1 < |mem| && mem'[Last(bs, NULL) + 1] == b.at
    ensures Tiled(bs + [b], x, End(b)) && List(mem', bs + [b], NULL, NULL)
  {
    hide Tiled;
    One(mem', b, Last(bs, NULL), NULL);
    TiledCat(bs, [b], x, b.at, End(b));
    ListCat(mem', bs, [b], NULL, NULL);
    if bs != [] {
      NewNext(mem, mem', bs, NULL, NULL, b.at, x, b.at);
    }
  }

  lemma ExtendedKept(mem: seq<int>, mem': seq<int>, bs: seq<Block>, x: nat, y: nat)
    requires List(mem, bs, NULL, NULL) && Tiled(bs, x, y) && |mem| <= |mem'|
    requires forall i :: 0 <= i < |mem| && (bs == [] || i != Last(bs, NULL) + 1) ==> mem'[i] == mem[i]
    ensures Kept(mem, mem', Used(bs))
  {
    hide List;
    hide Tiled;
    hide Kept;
    hide Used;
    if bs != [] {
      var k := |bs| - 1;
      assert bs == bs[..k] + [bs[k]] + [];
      var lo, hi := Focus(mem, bs[..k], [bs[k]], [], x, y);
      assert bs == bs[..k] + [bs[k]];
      LastKept(mem, mem', bs[..k], bs[k], x);
    } else {
      NothingKept(mem, mem');
    }
  }

  lemma NothingKept(mem: seq<int>, mem': seq<int>)
    requires |mem| <= |mem'|
    ensures Kept(mem, mem', Used([]))
  {
  }

  /** A change in the header of the last block touches no payload. */
  lemma LastKept(mem: seq<int>, mem': seq<int>, a: seq<Block>, b: Block, x: nat)
    requires Tiled(a, x, b.at) && |mem| <= |mem'|
    requires forall i :: 0 <= i < |mem| && i != b.at + 1 ==> mem'[i] == mem[i]
    ensures Kept(mem, mem', Used(a + [b]))
  {
    UsedCat(a, [b]);
    UsedOne(b);
    UsedBetween(a, x, b.at);
  }

  /** What the code reads of block k. */
  lemma Fields(mem: seq<int>, bs: seq<Block>, k: nat, x: nat)
    requires List(mem, bs, NULL, NULL) && Tiled(bs, x, |mem|) && k < |bs| && x > 0
    ensures 0 < bs[k].at && End(bs[k]) <= |mem| && NextOf(bs, k) + 2 < |mem|
    ensures mem[bs[k].at] == bs[k].size && mem[bs[k].at + 1] == NextOf(bs, k) && mem[bs[k].at + 4] == Ptr(bs[k])
    ensures mem[bs[k].at + 3] != 0 <==> bs[k].free
    ensures k + 1 < |bs| ==> NextOf(bs, k) > 0
  {
    hide List;
    hide Tiled;
    Look(mem, bs, k, x, |mem|);
    if k + 1 < |bs| {
      Look(mem, bs, k + 1, x, |mem|);
    }
  }

  /** The words written when block k is cut. */
  lemma SplitWords(mem: seq<int>, mem1: seq<int>, mem': seq<int>, bs: seq<Block>, k: nat, s: nat, x: nat)
    requires List(mem, bs, NULL, NULL) && Tiled(bs, x, |mem|) && k < |bs| && s + HEADER <= bs[k].size && x > 0
    requires |mem| == |mem1| == |mem'|
    requires var m := Split(bs[k], s); var n := m[1].at;
             && Header(mem1, m[1], bs[k].at, NextOf(bs, k)) && Same(mem, mem1, n, n + HEADER)
             && NextOf(bs, k) + 2 < |mem1| && mem' == SplitLinks(mem1, bs, k, n, s)
    ensures var bs' := bs[..k] + Split(bs[k], s) + bs[k + 1..]; Tiled(bs', x, |mem|) && List(mem', bs', NULL, NULL)
    ensures Kept(mem, mem', Used(bs[..k]) + Used(bs[k + 1..]))
  {
    hide List;
    hide Tiled;
    hide Used;
    hide Kept;
    Look(mem, bs, k, x, |mem|);
    if k + 1 < |bs| {
      NextHeader(mem, bs, k, x, |mem|);
      Look(mem, bs, k + 1, x, |mem|);
    }
    var m := Split(bs[k], s);
    Two(mem', m[0], m[1], PrevOf(bs, k), NextOf(bs, k));
    Swap(mem, mem', bs, k, 1, m, x, |mem|);
  }

  function SplitLinks(mem: seq<int>, bs: seq<Block>, k: nat, n: nat, s: nat): seq<int>
    requires k < |bs| && bs[k].at + 1 < |mem| && NextOf(bs, k) + 2 < |mem|
  {
    var mem1 := mem[bs[k].at := s][bs[k].at + 1 := n];
    if NextOf(bs, k) != NULL then mem1[NextOf(bs, k) + 2 := n] else mem1
  }

  function FuseLinks(mem: seq<int>, bs: seq<Block>, k: nat): seq<int>
    requires k + 1 < |bs| && bs[k].at + 1 < |mem| && NextOf(bs, k + 1) + 2 < |mem|
  {
    var mem1 := mem[bs[k].at := Joined(bs[k], bs[k + 1]).size][bs[k].at + 1 := NextOf(bs, k + 1)];
    if NextOf(bs, k + 1) != NULL then mem1[NextOf(bs, k + 1) + 2 := bs[k].at] else mem1
  }

  /** The words written when block k swallows the block behind it. */
  lemma FuseWords(mem: seq<int>, mem': seq<int>, bs: seq<Block>, k: nat, x: nat)
    requires List(mem, bs, NULL, NULL) && Tiled(bs, x, |mem|) && k + 1 < |bs| && x > 0
    requires bs[k].at + 1 < |mem| && NextOf(bs, k + 1) + 2 < |mem| && mem' == FuseLinks(mem, bs, k)
    ensures var bs' := bs[..k] + [Joined(bs[k], bs[k + 1])] + bs[k + 2..];
            Tiled(bs', x, |mem|) && List(mem', bs', NULL, NULL)
    ensures Kept(mem, mem', Used(bs[..k]) + Used(bs[k + 2..]))
  {
    hide List;
    hide Tiled;
    hide Used;
    hide Kept;
    Look(mem, bs, k, x, |mem|);
    NextHeader(mem, bs, k, x, |mem|);
    if k + 2 < |bs| {
      NextHeader(mem, bs, k + 1, x, |mem|);
      Look(mem, bs, k + 2, x, |mem|);
    }
    var m := Joined(bs[k], bs[k + 1]);
    One(mem', m, PrevOf(bs, k), NextOf(bs, k + 1));
    Swap(mem, mem', bs, k, 2, [m], x, |mem|);
  }

  lemma FusedUsed(bs: seq<Block>, k: nat)
    requires k + 1 < |bs| && bs[k + 1].free
    ensures Used(bs[k + 1..]) == Used(bs[k + 2..])
    ensures bs[..k] + JoinNext(bs[k], bs[k + 1..]) == bs[..k] + [Joined(bs[k], bs[k + 1])] + bs[k + 2..]
  {
  }

  lemma NotFused(bs: seq<Block>, k: nat)
    requires k < |bs| && (k + 1 == |bs| || !bs[k + 1].free)
    ensures bs == bs[..k] + JoinNext(bs[k], bs[k + 1..])
  {
  }

  lemma AllKept(mem: seq<int>, u: map<nat, nat>)
    ensures Kept(mem, mem, u)
  {
  }

  lemma KeptOn(mem: seq<int>, mem1: seq<int>, mem2: seq<int>, u: map<nat, nat>)
    requires Kept(mem, mem1, u) && Kept(mem1, mem2, u)
    ensures Kept(mem, mem2, u)
  {
  }

  /** The payloads beside block k. */
  function Others(bs: seq<Block>, k: nat): map<nat, nat>
    requires k < |bs|
  {
    Used(bs[..k]) + Used(bs[k + 1..])
  }

  lemma OthersOfFree(bs: seq<Block>, k: nat)
    requires k < |bs| && bs[k].free
    ensures Others(bs, k) == Used(bs)
  {
    hide Used;
    assert bs == bs[..k] + [bs[k]] + bs[k + 1..];
    UsedCat(bs[..k] + [bs[k]], bs[k + 1..]);
    UsedCat(bs[..k], [bs[k]]);
    UsedOne(bs[k]);
  }

  /** Neither cutting a free block nor marking it changes the payloads beside it. */
  lemma OthersOfSplit(bs: seq<Block>, k: nat, s: nat)
    requires k < |bs| && s + HEADER <= bs[k].size
    ensures var bs' := bs[..k] + Split(bs[k], s) + bs[k + 1..];
            && Others(bs', k) == Others(bs, k) && bs'[k] == Split(bs[k], s)[0]
            && bs'[k := bs'[k].(free := false)] == bs[..k] + Split(bs[k].(free := false), s) + bs[k + 1..]
  {
    hide Used;
    var bs' := bs[..k] + Split(bs[k], s) + bs[k + 1..];
    assert bs'[..k] == bs[..k];
    assert bs'[k + 1..] == [Split(bs[k], s)[1]] + bs[k + 1..];
    UsedCat([Split(bs[k], s)[1]], bs[k + 1..]);
    UsedOne(Split(bs[k], s)[1]);
  }

  lemma EmptyBase(mem: seq<int>, bs: seq<Block>, x: nat)
    requires List(mem, bs, NULL, NULL) && Tiled(bs, x, |mem|) && First(bs, NULL) == NULL && x > 0
    ensures bs == []
  {
  }

  /** Once block k is free, the payloads beside it and beside a free block before it are the same. */
  lemma OthersOfPrev(bs: seq<Block>, k: nat)
    requires 0 < k < |bs| && bs[k].free && bs[k - 1].free
    ensures Others(bs, k - 1) == Others(bs, k)
  {
    OthersOfFree(bs, k - 1);
    OthersOfFree(bs, k);
  }

  lemma OthersOfMark(bs: seq<Block>, k: nat)
    requires k < |bs|
    ensures Others(bs[k := bs[k].(free := true)], k) == Others(bs, k)
  {
  }

  lemma OthersOfFreed(bs: seq<Block>, k: nat, x: nat, y: nat)
    requires Tiled(bs, x, y) && k < |bs| && !bs[k].free
    ensures Others(bs, k) == Used(bs) - {Ptr(bs[k])}
  {
    hide Used;
    hide Tiled;
    var a, b, c := bs[..k], bs[k], bs[k + 1..];
    assert bs == a + ([b] + c);
    var lo := TiledSplit(a, [b] + c, x, y);
    var hi := TiledSplit([b], c, lo, y);
    UsedBetween(a, x, lo);
    UsedBetween(c, hi, y);
    UsedOne(b);
    TiledEnd([b], b.at, hi, End(b));
    UsedCat(a, [b] + c);
    UsedCat([b], c);
    MergeAssoc(Used(a), map[Ptr(b) := b.size], Used(c));
    Minus(Used(a), Used(c), Ptr(b), b.size);
  }

  lemma OthersOfJoin(bs: seq<Block>, k: nat)
    requires k + 1 < |bs| && bs[k + 1].free
    ensures Others(bs[..k] + [Joined(bs[k], bs[k + 1])] + bs[k + 2..], k) == Others(bs, k)
  {
    hide Used;
    FusedUsed(bs, k);
    var bs' := bs[..k] + [Joined(bs[k], bs[k + 1])] + bs[k + 2..];
    assert bs'[..k] == bs[..k] && bs'[k + 1..] == bs[k + 2..];
  }

  /** The two joins that free makes, one after the other. */
  lemma FreeForm(bs: seq<Block>, bs2: seq<Block>, k: nat, j: nat)
    requires k < |bs| && j < |bs2|
    requires var f := bs[k].(free := true);
             if k > 0 && bs[k - 1].free then j == k - 1 && bs2 == bs[..j] + [Joined(bs[j], f)] + bs[k + 1..]
             else j == k && bs2 == bs[k := f]
    ensures bs2[..j] + JoinNext(bs2[j], bs2[j + 1..]) == HeapBlocks.Free(bs, k)
  {
    assert bs2[..j] == bs[..j] && bs2[j + 1..] == bs[k + 1..];
  }

  lemma SizeOf(bs: seq<Block>, k: nat, x: nat, y: nat)
    requires Tiled(bs, x, y) && k < |bs| && !bs[k].free
    ensures Ptr(bs[k]) in Used(bs) && Used(bs)[Ptr(bs[k])] == bs[k].size
  {
    hide Used;
    hide Tiled;
    var a, b, c := bs[..k], bs[k], bs[k + 1..];
    assert bs == a + ([b] + c);
    var lo := TiledSplit(a, [b] + c, x, y);
    var hi := TiledSplit([b], c, lo, y);
    UsedBetween(c, hi, y);
    UsedOne(b);
    TiledEnd([b], b.at, hi, End(b));
    UsedCat(a, [b] + c);
    UsedCat([b], c);
  }

  // ----- runs of calls -----

  /** Every pointer that is freed is live when it is. */
  ghost predicate Legal(h: Heap, calls: seq<Call>, start: nat)
    requires HeapBlocks.Ok(h, start)
    decreases |calls|
  {
    calls == [] || ((calls[0].FreeCall? ==> calls[0].p in h.live)
                    && Legal(HeapBlocks.Next(h, calls[0], start), calls[1..], start))
  }

  /** The pointers that some calls free. */
  function Freed(calls: seq<Call>): set<nat> {
    set c | c in calls && c.FreeCall? :: c.p
  }

  /** What is live and not freed by any of the calls is live, with the same size, after the first. */
  lemma StillLive(h: Heap, calls: seq<Call>, start: nat)
    requires HeapBlocks.Ok(h, start) && calls != []
    ensures Freed([calls[0]]) <= Freed(calls)
    ensures forall p :: p in h.live - Freed(calls) ==>
              var rest := HeapBlocks.Next(h, calls[0], start).live - Freed(calls[1..]);
              p in rest && rest[p] == h.live[p]
  {
    hide HeapBlocks.Ok;
    hide IndexOf;
    var c := calls[0];
    assert c in calls;
    if c.MallocCall? && c.size > 0 {
      MallocOk(h, c.size, start);
    } else if c.FreeCall? && c.p in h.live {
      FreeOk(h, c.p, start);
      assert c.p in Freed(calls);
    }
  }

  /** A live pointer lies behind the first header. */
  lemma LiveInside(h: Heap, p: nat, start: nat)
    requires HeapBlocks.Ok(h, start) && p in h.live && start > 0
    ensures h.bs != [] && First(h.bs, NULL) != NULL && First(h.bs, NULL) < p < h.brk && p in Used(h.bs)
  {
    PtrBounds(h.bs, start, h.brk, p);
    UsedBetween(h.bs, start, h.brk);
  }

  lemma KeptLess(mem: seq<int>, mem': seq<int>, u: map<nat, nat>, v: map<nat, nat>)
    requires Kept(mem, mem', u) && forall p :: p in v ==> p in u && v[p] <= u[p]
    ensures Kept(mem, mem', v)
  {
  }

  class Allocator {
    var mem: seq<int>
    var base: int
    ghost const start: nat
    ghost var bs: seq<Block>

    /** The pointers handed out and not yet freed, with the sizes asked for. */
    ghost var live: map<nat, nat>

    ghost function View(): Heap
      reads this
    {
      Heap(bs, |mem|, live)
    }

    /** The list of headers is right, no two neighbours are free, and the blocks in use are the live ones. */
    ghost predicate Sound()
      reads this
    {
      Valid() && HeapBlocks.Ok(View(), start)
    }

    ghost predicate Valid()
      reads this
    {
      && 0 < start <= |mem| && base == First(bs, NULL)
      && Tiled(bs, start, |mem|) && List(mem, bs, NULL, NULL)
    }

    /** A process that has used n words, and none of its heap. */
    constructor (n: nat)
      requires n > 0
      ensures Sound() && bs == [] && live == map[] && start == |mem| == n
    {
      mem := seq(n, i => 0);
      base := NULL;
      start := n;
      bs := [];
      live := map[];
    }

    /** sbrk, where it succeeds: the new words hold anything. */
    method Sbrk(incr: nat)
      modifies `mem
      ensures |mem| == |old(mem)| + incr && mem[..|old(mem)|] == old(mem)
    {
      mem := mem + seq(incr, i => 0);
    }

    method FindBlock(s: nat) returns (b: int, last: int)
      requires Valid() && bs != []
      ensures var k := FirstFit(bs, s);
              if k < |bs| then b == bs[k].at && b != NULL else b == NULL && last == Last(bs, NULL)
    {
      hide List;
      hide Tiled;
      hide FirstFit;
      b, last := base, base;
      ghost var k := 0;
      Look(mem, bs, k, start, |mem|);
      while b != NULL && !(mem[b + 3] != 0 && mem[b] >= s)
        invariant 0 <= k <= |bs| && b == (if k < |bs| then bs[k].at else NULL)
        invariant k < |bs| ==> Header(mem, bs[k], PrevOf(bs, k), NextOf(bs, k)) && bs[k].at > 0
        invariant k > 0 ==> last == bs[k - 1].at
        invariant forall i :: 0 <= i < k ==> !Fits(bs[i], s)
        decreases |bs| - k
      {
        last := b;
        b := mem[b + 1];
        k := k + 1;
        if k < |bs| {
          Look(mem, bs, k, start, |mem|);
        }
      }
    }

    /** Mark block k. */
    method SetFree(b: int, free: bool, ghost k: nat)
      requires Valid() && k < |bs| && b == bs[k].at
      modifies `mem, `bs
      ensures Valid() && bs == old(bs)[k := old(bs)[k].(free := free)]
      ensures |mem| == |old(mem)| && Kept(old(mem), mem, Used(old(bs)[..k]) + Used(old(bs)[k + 1..]))
    {
      hide List;
      hide Tiled;
      hide Used;
      hide Kept;
      Look(mem, bs, k, start, |mem|);
      ghost var m := bs[k].(free := free);
      mem := mem[b + 3 := if free then 1 else 0];
      One(mem, m, PrevOf(bs, k), NextOf(bs, k));
      if k + 1 < |bs| {
        NextHeader(old(mem), bs, k, start, |mem|);
      }
      Swap(old(mem), mem, bs, k, 1, [m], start, |mem|);
      bs := bs[..k] + [m] + bs[k + 1..];
    }


    /** Fill in the five words of a header. */
    method PutHeader(b: Block, next: int, prev: int)
      requires Ptr(b) <= |mem|
      modifies `mem
      ensures Header(mem, b, prev, next) && |mem| == |old(mem)| && Same(old(mem), mem, b.at, Ptr(b))
    {
      mem := mem[b.at := b.size];
      mem := mem[b.at + 1 := next];
      mem := mem[b.at + 2 := prev];
      mem := mem[b.at + 3 := if b.free then 1 else 0];
      mem := mem[b.at + 4 := Ptr(b)];
    }

    /** Cut block k after s words of payload; the rest becomes a free block. */
    method SplitBlock(b: int, s: nat, ghost k: nat)
      requires Valid() && k < |bs| && b == bs[k].at && s + HEADER <= bs[k].size
      modifies `mem, `bs
      ensures Valid() && bs == old(bs)[..k] + Split(old(bs)[k], s) + old(bs)[k + 1..]
      ensures |mem| == |old(mem)| && Kept(old(mem), mem, Used(old(bs)[..k]) + Used(old(bs)[k + 1..]))
    {
      hide List;
      hide Tiled;
      hide Used;
      hide Kept;
      hide Header;
      hide Same;
      Fields(mem, bs, k, start);
      var n := b + HEADER + s;
      var size, next := mem[b], mem[b + 1];
      PutHeader(Block(n, size - s - HEADER, true), next, b);
      ghost var mem1 := mem;
      mem := mem[b := s];
      mem := mem[b + 1 := n];
      if next != NULL {
        mem := mem[next + 2 := n];
      }
      SplitWords(old(mem), mem1, mem, bs, k, s, start);
      bs := bs[..k] + Split(bs[k], s) + bs[k + 1..];
    }

    /** A new block in use at the end of the heap, behind block last. */
    method ExtendHeap(last: int, s: nat) returns (b: int)
      requires Valid() && last == Last(bs, NULL)
      modifies `mem, `bs, `base
      ensures b == |old(mem)| && |mem| == b + HEADER + s && bs == old(bs) + [Block(b, s, false)]
      ensures base == old(base) && Tiled(bs, start, |mem|) && List(mem, bs, NULL, NULL)
      ensures Kept(old(mem), mem, Used(old(bs)))
    {
      hide List;
      hide Tiled;
      hide Used;
      b := |mem|;
      Sbrk(HEADER + s);
      ghost var mem1 := mem;
      if bs != [] {
        Look(old(mem), bs, |bs| - 1, start, b);
      }
      PutHeader(Block(b, s, false), NULL, last);
      if last != NULL {
        mem := mem[last + 1 := b];
      }
      Extended(old(mem), mem, bs, Block(b, s, false), start);
      ExtendedKept(old(mem), mem, bs, start, b);
      bs := bs + [Block(b, s, false)];
    }

    /** Join block k with the block behind it if that one is free. */
    method FusionBlock(b: int, ghost k: nat)
      requires Valid() && k < |bs| && b == bs[k].at
      modifies `mem, `bs
      ensures Valid() && |mem| == |old(mem)|
      ensures bs == old(bs)[..k] + JoinNext(old(bs)[k], old(bs)[k + 1..])
      ensures Kept(old(mem), mem, Used(old(bs)[..k]) + Used(old(bs)[k + 1..]))
    {
      hide List;
      hide Tiled;
      hide Used;
      hide Kept;
      hide Header;
      Fields(mem, bs, k, start);
      if k + 1 < |bs| {
        Fields(mem, bs, k + 1, start);
        NextHeader(mem, bs, k, start, |mem|);
      }
      var next := mem[b + 1];
      if next != NULL && mem[next + 3] != 0 && mem[b + 4] + mem[b] == next {
        FusedUsed(bs, k);
        Swallow(b, mem[next], mem[next + 1], k);
      } else {
        NotFused(bs, k);
        AllKept(mem, Used(bs[..k]) + Used(bs[k + 1..]));
      }
    }

    /** The block behind block k has this size and this next block: its words become part of block k. */
    method Swallow(b: int, size: int, next: int, ghost k: nat)
      requires Valid() && k + 1 < |bs| && b == bs[k].at && size == bs[k + 1].size && next == NextOf(bs, k + 1)
      modifies `mem, `bs
      ensures Valid() && |mem| == |old(mem)|
      ensures bs == old(bs)[..k] + [Joined(old(bs)[k], old(bs)[k + 1])] + old(bs)[k + 2..]
      ensures Kept(old(mem), mem, Used(old(bs)[..k]) + Used(old(bs)[k + 2..]))
    {
      hide List;
      hide Tiled;
      hide Used;
      hide Kept;
      Fields(mem, bs, k, start);
      Fields(mem, bs, k + 1, start);
      FuseWords(mem, FuseLinks(mem, bs, k), bs, k, start);
      mem := mem[b := mem[b] + HEADER + size];
      mem := mem[b + 1 := next];
      if next != NULL {
        mem := mem[next + 2 := b];
      }
      bs := bs[..k] + [Joined(bs[k], bs[k + 1])] + bs[k + 2..];
    }

    method Malloc(size: nat) returns (p: int)
      requires Valid() && size > 0
      modifies this
      ensures Valid() && bs == HeapBlocks.Malloc(old(bs), |old(mem)|, Align4(size))
      ensures p == MallocAt(old(bs), |old(mem)|, Align4(size)) && |mem| == MallocBrk(old(bs), |old(mem)|, Align4(size))
      ensures Kept(old(mem), mem, Used(old(bs))) && live == old(live)[p := size]
    {
      hide List;
      hide Tiled;
      hide Used;
      hide Kept;
      hide FirstFit;
      var s := Align4(size);
      var b: int;
      if base != NULL {
        var last;
        b, last := FindBlock(s);
        if b != NULL {
          TakeBlock(b, s, FirstFit(bs, s));
        } else {
          b := ExtendHeap(last, s);
        }
      } else {
        EmptyBase(mem, bs, start);
        b := ExtendHeap(NULL, s);
        base := b;
      }
      p := b + HEADER;
      live := live[p := size];
    }

    /** Cut the free block k if enough of it is left, and mark it as in use. */
    method TakeBlock(b: int, s: nat, ghost k: nat)
      requires Valid() && k < |bs| && b == bs[k].at && Fits(bs[k], s)
      modifies `mem, `bs
      ensures Valid() && bs == old(bs)[..k] + Take(old(bs)[k], s) + old(bs)[k + 1..]
      ensures |mem| == |old(mem)| && Kept(old(mem), mem, Used(old(bs)))
    {
      hide List;
      hide Tiled;
      hide Used;
      hide Kept;
      Look(mem, bs, k, start, |mem|);
      OthersOfFree(bs, k);
      if mem[b] - s >= HEADER + 4 {
        OthersOfSplit(bs, k, s);
        SplitBlock(b, s, k);
        ghost var mem1 := mem;
        SetFree(b, false, k);
        KeptOn(old(mem), mem1, mem, Used(old(bs)));
      } else {
        SetFree(b, false, k);
        assert bs == old(bs)[..k] + Take(old(bs)[k], s) + old(bs)[k + 1..];
      }
    }

    /** Whether p can be a pointer that malloc returned. */
    method ValidAddr(p: int) returns (ok: bool)
      requires Valid() && (base != NULL && base < p < |mem| ==> p in Used(bs))
      ensures ok <==> base != NULL && base < p < |mem|
    {
      hide List;
      hide Tiled;
      hide Used;
      if base != NULL {
        if base < p < |mem| {
          Look(mem, bs, IndexOf(bs, p), start, |mem|);
          return p == mem[p - HEADER + 4];
        }
      }
      return false;
    }

    /** free of a live pointer, or of one outside the heap, which changes nothing. */
    method Free(p: int)
      requires Valid() && (base != NULL && base < p < |mem| ==> p in Used(bs))
      modifies this
      ensures Valid() && |mem| == |old(mem)| && base == old(base)
      ensures if old(base) != NULL && old(base) < p < |old(mem)|
              then && bs == HeapBlocks.Free(old(bs), IndexOf(old(bs), p)) && Kept(old(mem), mem, Used(old(bs)) - {p})
                   && live == old(live) - {p}
              else bs == old(bs) && mem == old(mem) && live == old(live)
    {
      hide List;
      hide Tiled;
      hide Used;
      hide IndexOf;
      var ok := ValidAddr(p);
      if ok {
        Release(p - HEADER, IndexOf(bs, p));
        live := live - {p};
      }
    }

    method Release(addr: int, ghost k: nat)
      requires Valid() && k < |bs| && addr == bs[k].at && !bs[k].free
      modifies `mem, `bs
      ensures Valid() && |mem| == |old(mem)| && bs == HeapBlocks.Free(old(bs), k)
      ensures Kept(old(mem), mem, Used(old(bs)) - {Ptr(old(bs)[k])})
    {
      hide List;
      hide Tiled;
      hide Used;
      hide Kept;
      OthersOfFreed(bs, k, start, |mem|);
      OthersOfMark(bs, k);
      SetFree(addr, true, k);
      ghost var mem1, bs1 := mem, bs;
      var b := addr;
      Look(mem, bs, k, start, |mem|);
      if k > 0 {
        Look(mem, bs, k - 1, start, |mem|);
      }
      ghost var j := k;
      if mem[b + 2] != NULL && mem[mem[b + 2] + 3] != 0 {
        b := mem[b + 2];
        j := k - 1;
        OthersOfPrev(bs, k);
        OthersOfJoin(bs, j);
        FusedUsed(bs, j);
        FusionBlock(b, j);
        KeptOn(old(mem), mem1, mem, Others(bs1, k));
      }
      ghost var mem2 := mem;
      FreeForm(old(bs), bs, k, j);
      JoinBehind(b, j);
      KeptOn(old(mem), mem2, mem, Others(bs1, k));
    }

    method JoinBehind(b: int, ghost k: nat)
      requires Valid() && k < |bs| && b == bs[k].at
      modifies `mem, `bs
      ensures Valid() && |mem| == |old(mem)|
      ensures bs == old(bs)[..k] + JoinNext(old(bs)[k], old(bs)[k + 1..])
      ensures Kept(old(mem), mem, Others(old(bs), k))
    {
      hide List;
      hide Tiled;
      hide Used;
      hide Kept;
      Look(mem, bs, k, start, |mem|);
      if k + 1 < |bs| {
        NextHeader(mem, bs, k, start, |mem|);
      }
      if mem[b + 1] != NULL && mem[mem[b + 1] + 3] != 0 {
        FusionBlock(b, k);
      } else {
        AllKept(mem, Others(bs, k));
      }
    }

    /** The program writes word i of a live payload: the list is not disturbed, nor is any other payload. */
    method Store(p: int, i: nat, v: int)
      requires Valid() && p in Used(bs) && i < Used(bs)[p]
      modifies `mem
      ensures Valid() && p + i < |old(mem)| && mem == old(mem)[p + i := v]
      ensures Kept(old(mem), mem, Used(bs) - {p})
    {
      hide List;
      hide Tiled;
      hide Used;
      hide Kept;
      hide IndexOf;
      ghost var k := IndexOf(bs, p);
      Look(mem, bs, k, start, |mem|);
      SizeOf(bs, k, start, |mem|);
      mem := mem[p + i := v];
      One(mem, bs[k], PrevOf(bs, k), NextOf(bs, k));
      if k + 1 < |bs| {
        NextHeader(old(mem), bs, k, start, |mem|);
      }
      Swap(old(mem), mem, bs, k, 1, [bs[k]], start, |mem|);
      OthersOfFreed(bs, k, start, |mem|);
      assert bs == bs[..k] + [bs[k]] + bs[k + 1..];
    }

    /** One call of a client that frees only what is live: the abstract step, with all other payloads left alone. */
    method Serve(call: Call)
      requires Sound() && (call.FreeCall? ==> call.p in live)
      modifies this
      ensures Sound() && View() == HeapBlocks.Next(old(View()), call, start)
      ensures Kept(old(mem), mem, old(live) - Freed([call]))
    {
      hide List;
      hide Tiled;
      hide Calm;
      hide Used;
      hide Kept;
      hide IndexOf;
      hide HeapBlocks.Malloc;
      hide HeapBlocks.Free;
      match call {
        case MallocCall(size) =>
          if size > 0 {
            MallocOk(View(), size, start);
            var p := Malloc(size);
          } else {
            AllKept(mem, Used(bs));
          }
          KeptLess(old(mem), mem, Used(old(bs)), old(live) - Freed([call]));
        case FreeCall(p) =>
          FreeOk(View(), p, start);
          LiveInside(View(), p, start);
          Free(p);
          KeptLess(old(mem), mem, Used(old(bs)) - {p}, old(live) - Freed([call]));
      }
    }

    /**
     Any run of calls of such a client: the list of headers in memory goes
     through the abstract run, so its payloads stay apart and its free blocks
     coalesced, and what the client does not free keeps its contents.
     */
    method Run(calls: seq<Call>)
      requires Sound() && Legal(View(), calls, start)
      modifies this
      ensures Sound() && View() == HeapBlocks.After(old(View()), calls, start)
      ensures Kept(old(mem), mem, old(live) - Freed(calls))
      decreases |calls|
    {
      hide Valid;
      hide Kept;
      hide HeapBlocks.Ok;
      hide HeapBlocks.Next;
      if calls == [] {
        AllKept(mem, live - Freed(calls));
        return;
      }
      Serve(calls[0]);
      ghost var mem1 := mem;
      Run(calls[1..]);
      StillLive(old(View()), calls, start);
      KeptLess(old(mem), mem1, old(live) - Freed([calls[0]]), old(live) - Freed(calls));
      KeptLess(mem1, mem, HeapBlocks.Next(old(View()), calls[0], start).live - Freed(calls[1..]),
               old(live) - Freed(calls));
      KeptOn(old(mem), mem1, mem, old(live) - Freed(calls));
    }
  }
}
