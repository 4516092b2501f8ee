/**
 Reading and appending to files, block by block: the zones of a file are looked
 up and allocated through its inode, and the words go to the device directly or
 through the pointer to a block, which leads to the same words.
 */
module FileSystem {
  import opened Bitmap
  import opened BitSets
  import opened Device
  import opened FileData
  import opened FileZones

  const ENOSPC := 28
  const EFBIG := 27

  /** owner: the file and the position of each block that belongs to a file. */
  ghost predicate BlocksOk(zs: map<nat, seq<nat>>, owner: map<nat, (nat, nat)>, used: set<int>, total: int) {
    && (forall f :: f in zs ==> FileBlocks(f, zs[f], owner, total))
    && forall b :: b in owner ==> b in used
  }

  ghost predicate FileBlocks(f: nat, z: seq<nat>, owner: map<nat, (nat, nat)>, total: int) {
    forall k :: 0 <= k < |z| ==> 0 < z[k] < total && z[k] in owner && owner[z[k]] == (f, k)
  }

  lemma FileOnDevice(words: seq<int>, f: nat, z: seq<nat>, owner: map<nat, (nat, nat)>, total: int)
    requires FileBlocks(f, z, owner, total) && |words| == total * BLOCK_SIZE
    ensures OnDevice(words, z)
  {
  }

  /** A block of one file is no block of another. */
  lemma NotTheirs(f: nat, g: nat, z: seq<nat>, z': seq<nat>, owner: map<nat, (nat, nat)>, total: int, k: nat)
    requires FileBlocks(f, z, owner, total) && FileBlocks(g, z', owner, total) && f != g && k < |z|
    ensures z[k] !in z'
  {
  }

  lemma NewBlock(zs: map<nat, seq<nat>>, owner: map<nat, (nat, nat)>, used: set<int>, total: int, f: nat, b: nat)
    requires BlocksOk(zs, owner, used, total) && f in zs && 0 < b < total && b !in used
    ensures BlocksOk(zs[f := zs[f] + [b]], owner[b := (f, |zs[f]|)], used + {b}, total)
  {
  }

  /** Every block of the device that the map describes is in use. */
  ghost predicate BlocksGone(used: set<int>, total: int) {
    forall k :: 0 < k < total && k < 32 * BLOCK_SIZE ==> k in used
  }

  ghost predicate InodesGone(inums: set<int>, n: nat) {
    forall k :: 0 <= k < n ==> k in inums
  }

  /**
   Nothing more can be allocated for a file with blocks z and this inode: it is
   as long as can be, or there are no blocks, or it needs a table and there are
   no inodes.
   */
  ghost predicate Stuck(n: Inode, z: seq<nat>, noBlocks: bool, noInodes: bool)
    requires |n.zones| == NR_TZONES
  {
    || |z| >= MAX_ZONES
    || noBlocks
    || (|z| >= NR_DIRECT_ZONE && n.zones[TableOf(|z|)] == 0 && noInodes)
  }

  /** A block recorded for one file leaves the inode of any other file alone. */
  lemma OthersLinked(ns: seq<Inode>, zs: map<nat, seq<nat>>, holder: map<nat, (nat, nat)>, inums: set<int>, f: nat,
                     b: nat, g: nat)
    requires Tables(ns, zs, holder, inums) && f in zs && |zs[f]| < MAX_ZONES && g in zs && g != f
    requires |zs[f]| >= NR_DIRECT_ZONE ==> 0 < ns[f].zones[TableOf(|zs[f]|)] < |ns|
    ensures Link(ns, f, |zs[f]|, b)[g] == ns[g]
  {
    hide Recorded;
    if |zs[f]| >= NR_DIRECT_ZONE {
      assert TablesHeld(ns, f, holder);
    }
  }

  /** A chunk written into one file: no other file changes. */
  lemma ChunkWritten(was: seq<int>, now: seq<int>, ns: seq<Inode>, zs: map<nat, seq<nat>>, owner: map<nat, (nat, nat)>,
                     used: set<int>, total: int, f: nat, pos: nat, n: nat, chunk: seq<int>)
    requires BlocksOk(zs, owner, used, total) && |was| == total * BLOCK_SIZE && f in zs
             && (forall g :: g in zs ==> g < |ns|)
    requires pos <= n && pos / BLOCK_SIZE < |zs[f]| && pos % BLOCK_SIZE + |chunk| <= BLOCK_SIZE
    requires Place(zs[f], pos) + |chunk| <= |was| && now == Put(was, Place(zs[f], pos), chunk)
    ensures Content(now, zs[f], Extent(n, pos + |chunk|)) == Spliced(Content(was, zs[f], n), pos, chunk)
    ensures forall g :: g in zs && g != f ==> Content(now, zs[g], ns[g].size) == Content(was, zs[g], ns[g].size)
  {
    hide Content;
    hide Put;
    hide FileBlocks;
    FileOnDevice(was, f, zs[f], owner, total);
    Overwritten(was, now, zs[f], n, pos, chunk);
    forall g | g in zs && g != f ensures Content(now, zs[g], ns[g].size) == Content(was, zs[g], ns[g].size) {
      FileOnDevice(was, g, zs[g], owner, total);
      NotTheirs(f, g, zs[f], zs[g], owner, total, pos / BLOCK_SIZE);
      Undisturbed(was, now, zs[g], ns[g].size, zs[f][pos / BLOCK_SIZE], pos % BLOCK_SIZE, chunk);
    }
  }

  /** Every file but f has the size, the blocks and the words that it had. */
  ghost predicate OthersAlike(words: seq<int>, zs: map<nat, seq<nat>>, ns: seq<Inode>,
                              words': seq<int>, zs': map<nat, seq<nat>>, ns': seq<Inode>, f: nat) {
    forall g :: g in zs' && g != f ==>
      && g in zs && zs'[g] == zs[g] && g < |ns| && g < |ns'| && ns'[g].size == ns[g].size
      && Content(words', zs'[g], ns'[g].size) == Content(words, zs[g], ns[g].size)
  }

  lemma AlikeOn(words: seq<int>, zs: map<nat, seq<nat>>, ns: seq<Inode>,
                words1: seq<int>, zs1: map<nat, seq<nat>>, ns1: seq<Inode>,
                words2: seq<int>, zs2: map<nat, seq<nat>>, ns2: seq<Inode>, f: nat)
    requires OthersAlike(words, zs, ns, words1, zs1, ns1, f) && OthersAlike(words1, zs1, ns1, words2, zs2, ns2, f)
    ensures OthersAlike(words, zs, ns, words2, zs2, ns2, f)
  {
    hide Content;
  }

  /** What a search for one clear bit from the start tells. */
  lemma SearchedOne(ws: seq<bv32>, r: int)
    requires |ws| == BLOCK_SIZE
    requires r >= 0 ==> LowestRun(ws, 0, 1, r)
    requires r < 0 ==> forall a :: 0 <= a ==> !Clear(ws, a, 1)
    ensures r >= 0 ==> r < 32 * |ws| && r !in On(ws)
    ensures forall k :: 0 <= k < 32 * |ws| && (r < 0 || k < r) ==> k in On(ws)
    ensures Range(r, 1) == {r}
  {
    hide Bit;
    forall k | 0 <= k < 32 * |ws| && (r < 0 || k < r) ensures k in On(ws) {
      assert !Clear(ws, k, 1);
    }
  }

  /** Word pos of a file is word off of its block idx. */
  predicate At(pos: nat, idx: nat, off: nat) {
    idx == pos / BLOCK_SIZE && off == pos % BLOCK_SIZE
  }

  lemma AtStart(pos: nat)
    ensures At(pos, pos / BLOCK_SIZE, pos % BLOCK_SIZE)
  {
  }

  /** Behind a block the next one begins. */
  lemma AtNext(pos: nat, idx: nat, off: nat)
    requires At(pos, idx, off)
    ensures off < BLOCK_SIZE && At(pos + BLOCK_SIZE - off, idx + 1, 0)
  {
  }

  lemma SameExtent(pos: nat, n: nat, len: nat)
    requires pos <= n && 0 < len && pos % BLOCK_SIZE + len <= BLOCK_SIZE
    ensures BlocksFor(Extent(n, pos + len)) == BlocksFor(Extent(n, pos + 1))
  {
  }

  /** With all blocks full there is no place for a further word in them. */
  lemma FullBlocks(size: nat, size': nat)
    requires size % BLOCK_SIZE == 0 && size <= size' && BlocksFor(size') == BlocksFor(size)
    ensures size' == size
  {
  }

  lemma InsideBlocks(size: nat, pos: nat)
    requires pos < size
    ensures pos / BLOCK_SIZE < BlocksFor(size)
  {
  }

  lemma SliceOn(c: seq<int>, a: nat, b: nat, len: nat)
    requires a <= b && b + len <= |c|
    ensures c[a..b] + c[b..b + len] == c[a..b + len]
  {
  }

  // ----- the state as values -----

  /** Every file has its blocks, recorded where the code looks for them, and no two files share any. */
  ghost predicate StateOk(words: seq<int>, ns: seq<Inode>, total: int, used: set<int>, inums: set<int>,
                          zs: map<nat, seq<nat>>, holder: map<nat, (nat, nat)>, owner: map<nat, (nat, nat)>) {
    && |words| == total * BLOCK_SIZE
    && 0 in used && 0 in inums && |ns| <= 32 * BLOCK_SIZE
    && (forall n :: |ns| <= n < 32 * BLOCK_SIZE ==> n in inums)
    && Tables(ns, zs, holder, inums) && BlocksOk(zs, owner, used, total)
  }

  /** The device holds what the chunks written so far make of what it held at first. */
  ghost predicate TraceOk(origin: seq<int>, trace: seq<Chunk>, words: seq<int>) {
    |origin| == |words| && (forall c :: c in trace ==> Fits(c, Blocks(origin))) && words == Replayed(origin, trace)
  }

  ghost predicate NoBlockIn(ns: seq<Inode>, zs: map<nat, seq<nat>>, used: set<int>, inums: set<int>, total: int,
                            f: nat) {
    && f in zs && f < |ns| && |ns[f].zones| == NR_TZONES
    && Stuck(ns[f], zs[f], BlocksGone(used, total), InodesGone(inums, |ns|))
  }

  lemma StateFacts(words: seq<int>, ns: seq<Inode>, total: int, used: set<int>, inums: set<int>,
                   zs: map<nat, seq<nat>>, holder: map<nat, (nat, nat)>, owner: map<nat, (nat, nat)>)
    requires StateOk(words, ns, total, used, inums, zs, holder, owner)
    ensures Shaped(ns) && |words| == total * BLOCK_SIZE && 0 in used && 0 in inums && |ns| <= 32 * BLOCK_SIZE
    ensures forall n :: |ns| <= n < 32 * BLOCK_SIZE ==> n in inums
    ensures forall f :: f in zs ==> 0 < f < |ns|
  {
    hide BlocksOk;
  }

  /** A file gets an empty table. */
  lemma TableState(words: seq<int>, ns: seq<Inode>, total: int, used: set<int>, inums: set<int>,
                   zs: map<nat, seq<nat>>, holder: map<nat, (nat, nat)>, owner: map<nat, (nat, nat)>,
                   f: nat, t: nat, j: nat)
    requires StateOk(words, ns, total, used, inums, zs, holder, owner) && f in zs
    requires Shaped(ns) && f < |ns| && NR_DIRECT_ZONE <= t < NR_TZONES && ns[f].zones[t] == 0 && 0 < j < |ns|
             && j !in inums
    ensures j != f
    ensures var ns1 := ns[j := Inode(0, NO_ZONES)]; var ns' := ns1[f := ns1[f].(zones := ns1[f].zones[t := j])];
            && StateOk(words, ns', total, used, inums + {j}, zs, holder[j := (f, t)], owner)
            && (forall g :: g in zs ==> g != j)
            && forall g :: NoBlockIn(ns, zs, used, inums, total, g) ==> NoBlockIn(ns', zs, used, inums + {j}, total, g)
  {
    hide Recorded;
    hide TablesHeld;
    hide BlocksOk;
    NewTable(ns, zs, holder, inums, f, t, j);
  }

  /** A file gets a further block. */
  lemma BlockState(words: seq<int>, ns: seq<Inode>, total: int, used: set<int>, inums: set<int>,
                   zs: map<nat, seq<nat>>, holder: map<nat, (nat, nat)>, owner: map<nat, (nat, nat)>, f: nat, b: nat)
    requires StateOk(words, ns, total, used, inums, zs, holder, owner) && f in zs && |zs[f]| < MAX_ZONES
    requires Shaped(ns) && f < |ns| && (|zs[f]| >= NR_DIRECT_ZONE ==> ns[f].zones[TableOf(|zs[f]|)] != 0)
    requires 0 < b < total && b < 32 * BLOCK_SIZE && b !in used
    ensures |zs[f]| >= NR_DIRECT_ZONE ==> 0 < ns[f].zones[TableOf(|zs[f]|)] < |ns|
    ensures var ns', zs' := Link(ns, f, |zs[f]|, b), zs[f := zs[f] + [b]];
            && StateOk(words, ns', total, used + {b}, inums, zs', holder, owner[b := (f, |zs[f]|)])
            && SameSizes(ns, ns') && !NoBlockIn(ns, zs, used, inums, total, f)
            && forall g :: NoBlockIn(ns, zs, used, inums, total, g) ==> NoBlockIn(ns', zs', used + {b}, inums, total, g)
  {
    hide Recorded;
    hide TablesHeld;
    hide FileBlocks;
    NewBlock(zs, owner, used, total, f, b);
    LinkOk(ns, zs, holder, inums, f, b);
    hide BlocksOk;
    OthersKept(ns, zs, holder, inums, used, total, f, b);
  }

  lemma OthersKept(ns: seq<Inode>, zs: map<nat, seq<nat>>, holder: map<nat, (nat, nat)>, inums: set<int>,
                   used: set<int>, total: int, f: nat, b: nat)
    requires Tables(ns, zs, holder, inums) && f in zs && |zs[f]| < MAX_ZONES
    requires |zs[f]| >= NR_DIRECT_ZONE ==> 0 < ns[f].zones[TableOf(|zs[f]|)] < |ns|
    requires 0 < b < total && b < 32 * BLOCK_SIZE && b !in used
    ensures var ns', zs' := Link(ns, f, |zs[f]|, b), zs[f := zs[f] + [b]];
            && !NoBlockIn(ns, zs, used, inums, total, f)
            && forall g :: NoBlockIn(ns, zs, used, inums, total, g) ==> NoBlockIn(ns', zs', used + {b}, inums, total, g)
  {
    hide Tables;
    TablesShape(ns, zs, holder, inums);
    assert !BlocksGone(used, total);
    forall g | g in zs && g != f ensures Link(ns, f, |zs[f]|, b)[g] == ns[g] {
      OthersLinked(ns, zs, holder, inums, f, b, g);
    }
  }

  /** A chunk goes into a file, at pos, and is added to its size. */
  lemma ChunkState(words: seq<int>, ns: seq<Inode>, total: int, used: set<int>, inums: set<int>,
                   zs: map<nat, seq<nat>>, holder: map<nat, (nat, nat)>, owner: map<nat, (nat, nat)>,
                   f: nat, b: nat, pos: nat, n: nat, chunk: seq<int>, origin: seq<int>, trace: seq<Chunk>)
    requires StateOk(words, ns, total, used, inums, zs, holder, owner) && TraceOk(origin, trace, words)
    requires f in zs && f < |ns| && pos <= n && pos / BLOCK_SIZE < |zs[f]| && b == zs[f][pos / BLOCK_SIZE]
    requires pos % BLOCK_SIZE + |chunk| <= BLOCK_SIZE
    ensures (b + 1) * BLOCK_SIZE <= |words|
    ensures var off := pos % BLOCK_SIZE;
            var words' := Put(words, b * BLOCK_SIZE + off, chunk);
            var ns' := ns[f := ns[f].(size := ns[f].size + |chunk|)];
            && StateOk(words', ns', total, used, inums, zs, holder, owner)
            && TraceOk(origin, trace + [Chunk(b, off, chunk)], words')
            && Content(words', zs[f], Extent(n, pos + |chunk|)) == Spliced(Content(words, zs[f], n), pos, chunk)
            && (forall g :: g in zs && g != f ==>
                  g < |ns| && Content(words', zs[g], ns[g].size) == Content(words, zs[g], ns[g].size))
            && forall g :: NoBlockIn(ns, zs, used, inums, total, g) <==> NoBlockIn(ns', zs, used, inums, total, g)
  {
    hide Content;
    hide Put;
    hide Recorded;
    hide TablesHeld;
    BlockInside(zs, owner, used, total, f, b);
    ReplayedOn(origin, trace, Chunk(b, pos % BLOCK_SIZE, chunk));
    Resized(ns, zs, holder, inums, f, ns[f].size + |chunk|);
    ChunkWritten(words, Put(words, b * BLOCK_SIZE + pos % BLOCK_SIZE, chunk), ns, zs, owner, used, total, f, pos, n,
                 chunk);
    hide BlocksOk;
  }

  /** A place up to the end of n words is in a block, unless it is the end and the last block is full. */
  lemma ZoneThere(words: seq<int>, ns: seq<Inode>, total: int, used: set<int>, inums: set<int>,
                  zs: map<nat, seq<nat>>, holder: map<nat, (nat, nat)>, owner: map<nat, (nat, nat)>,
                  f: nat, pos: nat, n: nat)
    requires StateOk(words, ns, total, used, inums, zs, holder, owner) && f in zs && f < |ns|
    requires |zs[f]| == BlocksFor(n) && pos <= n
    ensures var idx := pos / BLOCK_SIZE;
            if idx < |zs[f]| then zs[f][idx] > 0 && |zs[f]| == BlocksFor(Extent(n, pos + 1))
            else idx == |zs[f]| && pos == n == |zs[f]| * BLOCK_SIZE && idx + 1 == BlocksFor(n + 1)
  {
    hide Tables;
    assert FileBlocks(f, zs[f], owner, total);
  }

  lemma OnDeviceHere(words: seq<int>, ns: seq<Inode>, total: int, used: set<int>, inums: set<int>,
                     zs: map<nat, seq<nat>>, holder: map<nat, (nat, nat)>, owner: map<nat, (nat, nat)>, f: nat)
    requires StateOk(words, ns, total, used, inums, zs, holder, owner) && f in zs
    ensures OnDevice(words, zs[f]) && forall k :: 0 <= k < |zs[f]| ==> 0 < zs[f][k] < total
  {
    hide Tables;
    assert FileBlocks(f, zs[f], owner, total);
    FileOnDevice(words, f, zs[f], owner, total);
  }

  /** Without blocks every file is stuck. */
  lemma Blockless(ns: seq<Inode>, zs: map<nat, seq<nat>>, used: set<int>, inums: set<int>, total: int, f: nat)
    requires f in zs && f < |ns| && |ns[f].zones| == NR_TZONES && BlocksGone(used, total)
    ensures NoBlockIn(ns, zs, used, inums, total, f)
  {
  }

  lemma BlockInside(zs: map<nat, seq<nat>>, owner: map<nat, (nat, nat)>, used: set<int>, total: int, f: nat, b: nat)
    requires BlocksOk(zs, owner, used, total) && f in zs && b in zs[f]
    ensures 0 < b < total
  {
    assert FileBlocks(f, zs[f], owner, total);
  }

  /** An append: the file, the words, and whether O_DIRECT is set. */
  datatype Write = Write(f: nat, data: seq<int>, direct: bool)

  /** The accepted parts of the writes to file f, one after the other. */
  ghost function Joined(ws: seq<Write>, accepted: seq<nat>, f: nat): seq<int>
    requires |accepted| == |ws|
  {
    if ws == [] then []
    else
      var w, n := ws[|ws| - 1], accepted[|ws| - 1];
      Joined(ws[..|ws| - 1], accepted[..|ws| - 1], f)
      + if w.f == f then (if n <= |w.data| then w.data[..n] else w.data) else []
  }

  /** All the words written to file f, one after the other. */
  ghost function Concat(ws: seq<Write>, f: nat): seq<int> {
    if ws == [] then []
    else Concat(ws[..|ws| - 1], f) + if ws[|ws| - 1].f == f then ws[|ws| - 1].data else []
  }

  lemma JoinedNone(f: nat)
    ensures Joined([], [], f) == Concat([], f) == []
  {
  }

  /** A further write, of which n words are accepted, and none if something was refused before. */
  lemma JoinedOn(ws: seq<Write>, accepted: seq<nat>, w: Write, n: nat, f: nat)
    requires |accepted| == |ws| && n <= |w.data| && Joined(ws, accepted, f) <= Concat(ws, f)
    requires w.f == f && Joined(ws, accepted, f) != Concat(ws, f) ==> n == 0
    ensures Joined(ws + [w], accepted + [n], f) == Joined(ws, accepted, f) + if f == w.f then w.data[..n] else []
    ensures Joined(ws + [w], accepted + [n], f) <= Concat(ws + [w], f)
    ensures Joined(ws, accepted, f) == Concat(ws, f) && (f == w.f ==> n == |w.data|)
            ==> Joined(ws + [w], accepted + [n], f) == Concat(ws + [w], f)
  {
    assert (ws + [w])[..|ws|] == ws && (accepted + [n])[..|ws|] == accepted;
  }

  class FileSys {
    var disk: seq<int>
    var inodes: seq<Inode>
    var blockInuse: int
    var freeBlocks: int
    const blockMap: array<bv32>
    const inodeMap: array<bv32>
    ghost var zs: map<nat, seq<nat>>
    ghost var holder: map<nat, (nat, nat)>
    ghost var owner: map<nat, (nat, nat)>

    /** What the device held at first, and the chunks of file data written since. */
    ghost const origin: seq<int>
    ghost var trace: seq<Chunk>

    ghost function Used(): set<int>
      reads blockMap
    {
      On(blockMap[..])
    }

    ghost function Inums(): set<int>
      reads inodeMap
    {
      On(inodeMap[..])
    }

    ghost function Total(): int
      reads this
    {
      blockInuse + freeBlocks
    }

    ghost predicate Valid()
      reads this, blockMap, inodeMap
    {
      && blockMap != inodeMap && blockMap.Length == inodeMap.Length == BLOCK_SIZE
      && StateOk(disk, inodes, Total(), Used(), Inums(), zs, holder, owner)
      && TraceOk(origin, trace, disk)
    }

    /** What the proofs need of the state that the invariant describes. */
    lemma Facts()
      requires Valid()
      ensures Shaped(inodes) && |disk| == Total() * BLOCK_SIZE && 0 in Used() && 0 in Inums()
              && |inodes| <= 32 * BLOCK_SIZE
      ensures forall n :: |inodes| <= n < 32 * BLOCK_SIZE ==> n in Inums()
      ensures forall f :: f in zs ==> 0 < f < |inodes|
    {
      StateFacts(disk, inodes, Total(), Used(), Inums(), zs, holder, owner);
    }

    /** File f has as many blocks as n words need. */
    ghost predicate SizedTo(f: nat, n: nat)
      reads this
    {
      f in zs && f < |inodes| && |zs[f]| == BlocksFor(n)
    }

    ghost predicate Sized(f: nat)
      reads this
    {
      f < |inodes| && SizedTo(f, inodes[f].size)
    }

    /** The first n words in the blocks of file f. */
    ghost function HoldsTo(f: nat, n: nat): (c: seq<int>)
      requires f in zs
      reads this
      ensures |c| == n
    {
      Content(disk, zs[f], n)
    }

    /** What file f holds. */
    ghost function Holds(f: nat): seq<int>
      reads this
    {
      if f in zs && f < |inodes| then Content(disk, zs[f], inodes[f].size) else []
    }

    lemma HoldsIs(f: nat)
      requires f in zs && f < |inodes|
      ensures Holds(f) == HoldsTo(f, inodes[f].size) && |Holds(f)| == inodes[f].size
    {
    }

    /** A device with empty files. */
    constructor (words: seq<int>, blocks: array<bv32>, numbers: array<bv32>, ns: seq<Inode>, files: set<nat>)
      requires blocks != numbers && blocks.Length == numbers.Length == BLOCK_SIZE && |words| % BLOCK_SIZE == 0
      requires 0 in On(blocks[..]) && 0 in On(numbers[..]) && |ns| <= 32 * BLOCK_SIZE
      requires forall n :: |ns| <= n < 32 * BLOCK_SIZE ==> n in On(numbers[..])
      requires Shaped(ns)
      requires forall f :: f in files ==> 0 < f < |ns| && f in On(numbers[..]) && ns[f] == Inode(0, NO_ZONES)
      ensures Valid() && AllSized() && zs.Keys == files && forall f :: f in files ==> Holds(f) == []
      ensures blockMap == blocks && inodeMap == numbers && origin == words && trace == []
    {
      hide On;
      origin, trace := words, [];
      disk := words;
      blockMap := blocks;
      inodeMap := numbers;
      inodes := ns;
      blockInuse, freeBlocks := 0, |words| / BLOCK_SIZE;
      zs := map f | f in files :: [];
      holder, owner := map[], map[];
    }

    /** alloc_block: the lowest free block, if there is one on the device. */
    method AllocBlock() returns (b: int)
      requires Valid()
      modifies blockMap, `blockInuse, `freeBlocks
      ensures Total() == old(Total())
      ensures if b > 0 then
                && b < Total() && b < 32 * BLOCK_SIZE && b !in old(Used()) && Used() == old(Used()) + {b}
                && forall k :: 0 <= k < b ==> k in old(Used())
              else
                b == -ENOSPC && blockMap[..] == old(blockMap[..]) && blockInuse == old(blockInuse)
                && BlocksGone(Used(), Total())
    {
      hide On;
      hide Bit;
      hide StateOk;
      Facts();
      ghost var ws := blockMap[..];
      var free := SearchFrom(blockMap, 0, 1);
      SearchedOne(ws, free);
      if free > 0 {
        if !(free < blockInuse + freeBlocks) {
          return -ENOSPC;
        }
        var r := SetBit(blockMap, free);
        OnSet(ws, blockMap[..], free, 1);
        blockInuse := blockInuse + 1;
        freeBlocks := freeBlocks - 1;
        return free;
      }
      return -ENOSPC;
    }

    /** alloc_inode: the lowest free inode number, with an empty inode, or 0. */
    method AllocInode() returns (n: nat)
      requires Valid()
      modifies inodeMap, `inodes
      ensures if n == 0 then inodeMap[..] == old(inodeMap[..]) && inodes == old(inodes) && InodesGone(Inums(), |inodes|)
              else
                && n < |old(inodes)| && inodes == old(inodes)[n := Inode(0, NO_ZONES)]
                && n !in old(Inums()) && Inums() == old(Inums()) + {n}
                && forall k :: 0 <= k < n ==> k in old(Inums())
    {
      hide On;
      hide Bit;
      hide StateOk;
      Facts();
      ghost var ws := inodeMap[..];
      var free := SearchFrom(inodeMap, 0, 1);
      SearchedOne(ws, free);
      if free <= 0 {
        return 0;
      }
      var r := SetBit(inodeMap, free);
      OnSet(ws, inodeMap[..], free, 1);
      inodes := inodes[free := Inode(0, NO_ZONES)];
      return free;
    }

    /** The block at position idx of a file, or 0: nothing is created. */
    method CurrentZone(f: nat, idx: nat) returns (b: nat)
      requires Valid() && f in zs
      ensures b == if idx < |zs[f]| then zs[f][idx] else 0
    {
      hide On;
      if idx >= MAX_ZONES {
        return 0;
      }
      assert ZoneOf(inodes, f, idx) == ZoneAt(zs[f], idx);
      if idx < NR_DIRECT_ZONE {
        return inodes[f].zones[idx];
      }
      var j := inodes[f].zones[TableOf(idx)];
      if j == 0 {
        return 0;
      }
      assert TablesHeld(inodes, f, holder);
      return inodes[j].zones[SlotOf(idx)];
    }

    /** No further block can be had for file f. */
    ghost predicate NoBlock(f: nat)
      reads this, blockMap, inodeMap
    {
      NoBlockIn(inodes, zs, Used(), Inums(), Total(), f)
    }

    /** No further word can be had for file f: its last block is full as well. */
    ghost predicate NoRoom(f: nat)
      reads this, blockMap, inodeMap
    {
      NoBlock(f) && f in zs && f < |inodes| && inodes[f].size % BLOCK_SIZE == 0
    }

    /** A file gets a table for block idx, if it has none yet. */
    method NeedTable(f: nat, idx: nat) returns (ok: bool)
      requires Valid() && f in zs && NR_DIRECT_ZONE <= idx < MAX_ZONES && idx == |zs[f]|
      modifies inodeMap, `inodes, `holder
      ensures Valid() && |inodes| == |old(inodes)|
      ensures forall g :: g in zs ==> inodes[g].size == old(inodes)[g].size
      ensures if ok then |inodes[f].zones| == NR_TZONES && inodes[f].zones[TableOf(idx)] != 0
              else NoBlock(f) && old(NoBlock(f))
      ensures forall g :: old(NoBlock(g)) ==> NoBlock(g)
    {
      hide On;
      hide StateOk;
      hide TraceOk;
      Facts();
      var t := TableOf(idx);
      if inodes[f].zones[t] == 0 {
        ghost var ns, inums := inodes, Inums();
        var j := AllocInode();
        if j == 0 {
          return false;
        }
        TableState(disk, ns, Total(), Used(), inums, zs, holder, owner, f, t, j);
        hide NoBlockIn;
        inodes := inodes[f := inodes[f].(zones := inodes[f].zones[t := j])];
        holder := holder[j := (f, t)];
      }
      return true;
    }

    /** The next block of a file is allocated and recorded. */
    method AllocZone(f: nat, idx: nat) returns (r: int)
      requires Valid() && f in zs && idx == |zs[f]|
      modifies inodeMap, blockMap, `inodes, `blockInuse, `freeBlocks, `zs, `holder, `owner
      ensures Valid() && |inodes| == |old(inodes)| && zs.Keys == old(zs).Keys
      ensures forall g :: g in zs ==> inodes[g].size == old(inodes)[g].size
      ensures if r > 0 then zs == old(zs)[f := old(zs)[f] + [r]]
              else zs == old(zs) && r == (if idx >= MAX_ZONES then -EFBIG else -ENOSPC) && NoBlock(f)
      ensures (r < 0 <==> old(NoBlock(f))) && forall g :: old(NoBlock(g)) ==> NoBlock(g)
    {
      hide On;
      hide StateOk;
      hide TraceOk;
      Facts();
      if idx >= MAX_ZONES {
        return -EFBIG;
      }
      if idx >= NR_DIRECT_ZONE {
        var ok := NeedTable(f, idx);
        if !ok {
          return -ENOSPC;
        }
      }
      r := RecordBlock(f, idx);
      if r < 0 {
        Blockless(old(inodes), old(zs), old(Used()), old(Inums()), old(Total()), f);
      }
    }

    method RecordBlock(f: nat, idx: nat) returns (b: int)
      requires Valid() && f in zs && idx == |zs[f]| < MAX_ZONES
      requires idx >= NR_DIRECT_ZONE ==> |inodes[f].zones| == NR_TZONES && inodes[f].zones[TableOf(idx)] != 0
      modifies blockMap, `inodes, `blockInuse, `freeBlocks, `zs, `owner
      ensures Valid() && |inodes| == |old(inodes)| && zs.Keys == old(zs).Keys
      ensures forall g :: g in zs ==> inodes[g].size == old(inodes)[g].size
      ensures if b > 0 then zs == old(zs)[f := old(zs)[f] + [b]] else zs == old(zs) && b == -ENOSPC && NoBlock(f)
      ensures (old(NoBlock(f)) ==> b < 0) && (b < 0 ==> BlocksGone(old(Used()), old(Total())))
              && forall g :: old(NoBlock(g)) ==> NoBlock(g)
    {
      hide On;
      hide StateOk;
      hide TraceOk;
      hide NoBlockIn;
      Facts();
      ghost var used := Used();
      b := AllocBlock();
      if b < 0 {
        Blockless(inodes, zs, Used(), Inums(), Total(), f);
        assert Used() == used;
        return;
      }
      BlockState(disk, inodes, Total(), used, Inums(), zs, holder, owner, f, b);
      if idx < NR_DIRECT_ZONE {
        inodes := inodes[f := inodes[f].(zones := inodes[f].zones[idx := b])];
      } else {
        var j := inodes[f].zones[TableOf(idx)];
        inodes := inodes[j := inodes[j].(zones := inodes[j].zones[SlotOf(idx) := b])];
      }
      owner := owner[b := (f, idx)];
      zs := zs[f := zs[f] + [b]];
    }

    /** One chunk inside block b of the device, written directly or through the pointer to the block. */
    method CopyIn(b: nat, off: nat, chunk: seq<int>, direct: bool) returns (r: nat)
      requires off + |chunk| <= BLOCK_SIZE && (b + 1) * BLOCK_SIZE <= |disk|
      modifies `disk
      ensures r == |chunk| && disk == Put(old(disk), b * BLOCK_SIZE + off, chunk)
    {
      if direct {
        disk, r := IoWrite(disk, chunk, b * BLOCK_SIZE + off, |chunk|);
        assert chunk[..|chunk|] == chunk;
      } else {
        var p := b * BLOCK_SIZE + off;
        var i := 0;
        while i < |chunk|
          invariant 0 <= i <= |chunk| && |disk| == |old(disk)|
          invariant forall j :: 0 <= j < |disk| ==> disk[j] == if p <= j < p + i then chunk[j - p] else old(disk)[j]
        {
          disk := disk[p + i := chunk[i]];
          i := i + 1;
        }
        r := |chunk|;
      }
    }

    method CopyOut(b: nat, off: nat, len: nat, direct: bool) returns (chunk: seq<int>)
      requires off + len <= BLOCK_SIZE && (b + 1) * BLOCK_SIZE <= |disk|
      ensures chunk == disk[b * BLOCK_SIZE + off..b * BLOCK_SIZE + off + len]
    {
      if direct {
        var r;
        chunk, r := IoRead(disk, b * BLOCK_SIZE + off, len);
      } else {
        var p := b * BLOCK_SIZE + off;
        chunk := [];
        var i := 0;
        while i < len
          invariant 0 <= i <= len && chunk == disk[p..p + i]
        {
          chunk := chunk + [disk[p + i]];
          i := i + 1;
        }
      }
    }

    /** A chunk goes into block b of file f. */
    method WriteBlock(f: nat, b: nat, off: nat, chunk: seq<int>, direct: bool, ghost pos: nat, ghost n: nat)
      returns (r: nat)
      requires Valid() && f in zs && f < |inodes| && pos <= n && pos / BLOCK_SIZE < |zs[f]|
      requires b == zs[f][pos / BLOCK_SIZE] && off == pos % BLOCK_SIZE && off + |chunk| <= BLOCK_SIZE
      modifies `disk, `inodes, `trace
      ensures Valid() && r == |chunk| && |inodes| == |old(inodes)| && inodes[f].size == old(inodes)[f].size + |chunk|
      ensures HoldsTo(f, Extent(n, pos + |chunk|)) == Spliced(old(HoldsTo(f, n)), pos, chunk)
      ensures forall g :: g in zs && g != f ==> Holds(g) == old(Holds(g)) && inodes[g] == old(inodes)[g]
      ensures forall g :: old(NoBlock(g)) <==> NoBlock(g)
    {
      hide On;
      hide StateOk;
      hide TraceOk;
      hide NoBlockIn;
      hide Content;
      hide Put;
      hide Spliced;
      Facts();
      ChunkState(disk, inodes, Total(), Used(), Inums(), zs, holder, owner, f, b, pos, n, chunk, origin, trace);
      r := CopyIn(b, off, chunk, direct);
      trace := trace + [Chunk(b, off, chunk)];
      inodes := inodes[f := inodes[f].(size := inodes[f].size + r)];
    }

    /** The place of the next word decides the block it goes to: one that is there, or one still to be had. */
    method NextZone(f: nat, idx: nat, ghost pos: nat, ghost n: nat) returns (b: int)
      requires Valid() && SizedTo(f, n) && pos <= n && idx == pos / BLOCK_SIZE
      modifies inodeMap, blockMap, `inodes, `blockInuse, `freeBlocks, `zs, `holder, `owner
      ensures Valid() && |inodes| == |old(inodes)| && zs.Keys == old(zs).Keys
      ensures forall g :: g in zs ==> inodes[g].size == old(inodes)[g].size
      ensures forall g :: g in zs && g != f ==> zs[g] == old(zs)[g]
      ensures HoldsTo(f, n) == old(HoldsTo(f, n))
      ensures if b > 0 then idx < |zs[f]| == BlocksFor(Extent(n, pos + 1)) && b == zs[f][idx]
              else b < 0 && SizedTo(f, n) && NoBlock(f) && pos == n == |zs[f]| * BLOCK_SIZE
      ensures old(NoBlock(f)) ==> zs[f] == old(zs)[f]
      ensures forall g :: old(NoBlock(g)) ==> NoBlock(g)
    {
      hide On;
      hide StateOk;
      hide TraceOk;
      hide NoBlockIn;
      hide Content;
      Facts();
      b := CurrentZone(f, idx);
      ZoneThere(disk, inodes, Total(), Used(), Inums(), zs, holder, owner, f, pos, n);
      if b == 0 {
        ghost var z := zs[f];
        var r := AllocZone(f, idx);
        Facts();
        if r < 0 {
          return r;
        }
        BlockAdded(disk, z, n, r);
        b := r;
      }
    }

    /** All files have as many blocks as their sizes need. */
    ghost predicate AllSized()
      reads this
    {
      forall g :: g in zs ==> Sized(g)
    }

    /** One turn of the loop: find or allocate the block, then fill it as far as the data goes. */
    method WriteStep(f: nat, idx: nat, off: nat, chunk: seq<int>, direct: bool, ghost pos: nat, ghost n: nat)
      returns (r: int)
      requires Valid() && SizedTo(f, n) && pos <= n && At(pos, idx, off)
      requires 0 < |chunk| && off + |chunk| <= BLOCK_SIZE
      modifies this, blockMap, inodeMap
      ensures Valid() && zs.Keys == old(zs).Keys && |inodes| == |old(inodes)|
      ensures OthersAlike(old(disk), old(zs), old(inodes), disk, zs, inodes, f)
      ensures if r < 0 then
                && NoBlock(f) && SizedTo(f, n) && pos == n == |zs[f]| * BLOCK_SIZE
                && HoldsTo(f, n) == old(HoldsTo(f, n)) && inodes[f].size == old(inodes)[f].size
              else
                && r == |chunk| && SizedTo(f, Extent(n, pos + r)) && inodes[f].size == old(inodes)[f].size + r
                && HoldsTo(f, Extent(n, pos + r)) == Spliced(old(HoldsTo(f, n)), pos, chunk)
      ensures old(NoBlock(f)) ==> |zs[f]| == |old(zs)[f]|
      ensures forall g :: old(NoBlock(g)) ==> NoBlock(g)
    {
      hide On;
      hide StateOk;
      hide TraceOk;
      hide NoBlock;
      hide HoldsTo;
      hide Spliced;
      hide Content;
      hide BlocksFor;
      Facts();
      var b := NextZone(f, idx, pos, n);
      Facts();
      if b < 0 {
        return b;
      }
      SameExtent(pos, n, |chunk|);
      r := WriteBlock(f, b, off, chunk, direct, pos, n);
      Facts();
    }

    /** If all other files are as they were, all files are sized as soon as this one is. */
    lemma StillSized(disk0: seq<int>, zs0: map<nat, seq<nat>>, ns0: seq<Inode>, f: nat)
      requires f in zs && zs.Keys == zs0.Keys && OthersAlike(disk0, zs0, ns0, disk, zs, inodes, f)
      requires forall g :: g in zs0 ==> g < |ns0| && |zs0[g]| == BlocksFor(ns0[g].size)
      ensures Sized(f) ==> AllSized()
    {
    }

    lemma AllSizedIs(f: nat)
      requires AllSized() && f in zs
      ensures Sized(f) && OthersAlike(disk, zs, inodes, disk, zs, inodes, f)
      ensures forall g :: g in zs ==> g < |inodes| && |zs[g]| == BlocksFor(inodes[g].size)
    {
    }

    /**
     Write to a file, from any place up to its end: the words are put in there,
     what does not fit into the blocks that can be had is refused, and no other
     file changes. The code adds every word written to the size of the file, so
     the size is right exactly if the write was at the end or wrote nothing.
     */
    method RootFsWrite(f: nat, data: seq<int>, offset: nat, direct: bool) returns (ret: int, moved: nat)
      requires Valid() && AllSized() && f in zs && offset <= inodes[f].size
      modifies this, blockMap, inodeMap
      ensures Valid() && zs.Keys == old(zs).Keys && |inodes| == |old(inodes)| && moved <= |data|
      ensures inodes[f].size == old(inodes)[f].size + moved
      ensures var all := Spliced(old(Holds(f)), offset, data[..moved]);
              && HoldsTo(f, |all|) == all
              && (inodes[f].size == |all| <==> offset == old(inodes)[f].size || moved == 0)
      ensures offset == old(inodes)[f].size || moved == 0 ==> AllSized()
      ensures OthersAlike(old(disk), old(zs), old(inodes), disk, zs, inodes, f)
      ensures if ret < 0 then moved == 0 < |data| else ret == moved
      ensures moved < |data| ==> NoBlock(f) && offset + moved == |zs[f]| * BLOCK_SIZE
      ensures old(NoBlock(f)) ==> |zs[f]| == |old(zs)[f]|
      ensures forall g :: old(NoBlock(g)) ==> NoBlock(g)
    {
      hide Valid;
      hide HoldsTo;
      hide Holds;
      hide NoBlock;
      hide Spliced;
      hide Content;
      hide BlocksFor;
      hide AllSized;
      hide OthersAlike;
      hide At;
      Facts();
      ghost var size := inodes[f].size;
      ghost var c := HoldsTo(f, size);
      AllSizedIs(f);
      HoldsIs(f);
      SplicedAtEnd(c, offset, data[..0]);
      AtStart(offset);
      var idx: nat, off: nat := offset / BLOCK_SIZE, offset % BLOCK_SIZE;
      var count := |data|;
      ret, moved := 0, 0;
      while count > 0
        invariant Valid() && zs.Keys == old(zs).Keys && |inodes| == |old(inodes)|
        invariant SizedTo(f, Extent(size, offset + moved)) && inodes[f].size == size + moved
        invariant 0 <= count && moved + count == |data| && ret == moved
        invariant count > 0 ==> At(offset + moved, idx, off)
        invariant HoldsTo(f, Extent(size, offset + moved)) == Spliced(c, offset, data[..moved])
        invariant OthersAlike(old(disk), old(zs), old(inodes), disk, zs, inodes, f)
        invariant (old(NoBlock(f)) ==> |zs[f]| == |old(zs)[f]|) && forall g :: old(NoBlock(g)) ==> NoBlock(g)
      {
        ghost var pos, n := offset + moved, Extent(size, offset + moved);
        AtNext(pos, idx, off);
        var len := if BLOCK_SIZE - off > count then count else BLOCK_SIZE - off;
        ghost var disk1, zs1, inodes1 := disk, zs, inodes;
        var r := WriteStep(f, idx, off, data[moved..moved + len], direct, pos, n);
        AlikeOn(old(disk), old(zs), old(inodes), disk1, zs1, inodes1, disk, zs, inodes, f);
        if r < 0 {
          if ret == 0 {
            ret := r;
          }
          break;
        }
        SplicedOn(c, offset, data, moved, len);
        idx := idx + 1;
        count := count - len;
        ret := ret + r;
        moved := moved + r;
        off := 0;
      }
      StillSized(old(disk), old(zs), old(inodes), f);
    }

    /** Read from a file: the words from offset on, as many as were asked for or are there. */
    method RootFsRead(f: nat, count: nat, offset: nat, direct: bool) returns (data: seq<int>)
      requires Valid() && AllSized() && f in zs && offset <= |Holds(f)|
      ensures |data| == if count < |Holds(f)| - offset then count else |Holds(f)| - offset
      ensures data == Holds(f)[offset..offset + |data|]
    {
      hide On;
      hide AllSized;
      hide StateOk;
      hide TraceOk;
      hide Holds;
      hide At;
      AtStart(offset);
      Facts();
      HoldsIs(f);
      ghost var c := Holds(f);
      var idx: nat, off: nat := offset / BLOCK_SIZE, offset % BLOCK_SIZE;
      var remaining := inodes[f].size - offset;
      var left := if count < remaining then count else remaining;
      data := [];
      while left > 0
        invariant 0 <= left && |data| + left == if count < remaining then count else remaining
        invariant left > 0 ==> At(offset + |data|, idx, off)
        invariant data == c[offset..offset + |data|]
      {
        ghost var pos := offset + |data|;
        AtNext(pos, idx, off);
        var len := if BLOCK_SIZE - off > left then left else BLOCK_SIZE - off;
        var chunk := ReadStep(f, idx, off, len, direct, pos);
        SliceOn(c, offset, pos, len);
        idx := idx + 1;
        data := data + chunk;
        left := left - len;
        off := 0;
      }
    }

    /** A stretch of a file inside one block is a stretch of the device. */
    lemma ChunkThere(f: nat, pos: nat, len: nat)
      requires Valid() && AllSized() && f in zs && 0 < len && pos % BLOCK_SIZE + len <= BLOCK_SIZE
               && pos + len <= |Holds(f)|
      ensures var idx := pos / BLOCK_SIZE;
              && idx < |zs[f]| && 0 < zs[f][idx] && (zs[f][idx] + 1) * BLOCK_SIZE <= |disk|
              && var p := zs[f][idx] * BLOCK_SIZE + pos % BLOCK_SIZE;
                 Holds(f)[pos..pos + len] == disk[p..p + len]
    {
      hide On;
      hide Content;
      hide StateOk;
      hide TraceOk;
      hide BlocksFor;
      Facts();
      assert Sized(f);
      OnDeviceHere(disk, inodes, Total(), Used(), Inums(), zs, holder, owner, f);
      InsideBlocks(inodes[f].size, pos);
      ChunkRead(disk, zs[f], inodes[f].size, pos, len);
    }

    method ReadStep(f: nat, idx: nat, off: nat, len: nat, direct: bool, ghost pos: nat) returns (chunk: seq<int>)
      requires Valid() && AllSized() && f in zs && 0 < len && off + len <= BLOCK_SIZE && pos + len <= |Holds(f)|
      requires At(pos, idx, off)
      ensures chunk == Holds(f)[pos..pos + len]
    {
      hide On;
      hide Content;
      hide StateOk;
      hide TraceOk;
      hide BlocksFor;
      ChunkThere(f, pos, len);
      var b := CurrentZone(f, idx);
      chunk := CopyOut(b, off, len, direct);
    }

    /**
     Any run of appends to any files: each file grows by exactly what was
     accepted of its own writes, in order. What was accepted is a first part of
     what was written, and all of it unless the file has no room left.
     */
    method AppendAll(writes: seq<Write>) returns (accepted: seq<nat>)
      requires Valid() && AllSized() && forall i :: 0 <= i < |writes| ==> writes[i].f in zs
      modifies this, blockMap, inodeMap
      ensures Valid() && AllSized() && zs.Keys == old(zs).Keys && |accepted| == |writes|
      ensures forall i :: 0 <= i < |writes| ==> accepted[i] <= |writes[i].data|
      ensures forall i :: 0 <= i < |writes| && accepted[i] < |writes[i].data| ==> NoRoom(writes[i].f)
      ensures forall f :: f in zs ==> Holds(f) == old(Holds(f)) + Joined(writes, accepted, f)
      ensures forall f :: f in zs ==> Joined(writes, accepted, f) <= Concat(writes, f)
      ensures forall f :: f in zs ==> NoRoom(f) || Joined(writes, accepted, f) == Concat(writes, f)
      ensures forall g :: old(NoRoom(g)) ==> NoRoom(g)
      decreases |writes|
    {
      hide Valid;
      hide Holds;
      hide NoRoom;
      hide AllSized;
      hide Joined;
      hide Concat;
      if writes == [] {
        accepted := [];
        forall f ensures Joined(writes, accepted, f) == Concat(writes, f) == [] {
          JoinedNone(f);
        }
        return;
      }
      var w := writes[|writes| - 1];
      ghost var before := writes[..|writes| - 1];
      accepted := AppendAll(writes[..|writes| - 1]);
      ghost var earlier := accepted;
      var moved := Append(w);
      accepted := accepted + [moved];
      assert writes == before + [w];
      forall f | f in zs
        ensures Joined(writes, accepted, f) == Joined(before, earlier, f) + if f == w.f then w.data[..moved] else []
        ensures Joined(writes, accepted, f) <= Concat(writes, f)
        ensures NoRoom(f) || Joined(writes, accepted, f) == Concat(writes, f)
      {
        JoinedOn(before, earlier, w, moved, f);
      }
    }

    /** A write at the end: what was accepted is added to the file. */
    method Append(w: Write) returns (moved: nat)
      requires Valid() && AllSized() && w.f in zs
      modifies this, blockMap, inodeMap
      ensures Valid() && AllSized() && zs.Keys == old(zs).Keys && moved <= |w.data|
      ensures forall f :: f in zs ==> Holds(f) == old(Holds(f)) + if f == w.f then w.data[..moved] else []
      ensures (moved < |w.data| ==> NoRoom(w.f)) && (old(NoRoom(w.f)) ==> moved == 0)
      ensures forall g :: old(NoRoom(g)) ==> NoRoom(g)
    {
      hide On;
      hide StateOk;
      hide TraceOk;
      hide NoBlock;
      hide Content;
      hide Spliced;
      Facts();
      HoldsIs(w.f);
      ghost var size := inodes[w.f].size;
      assert Sized(w.f);
      var ret;
      ret, moved := RootFsWrite(w.f, w.data, inodes[w.f].size, w.direct);
      SplicedAtEnd(old(Holds(w.f)), size, w.data[..moved]);
      HoldsIs(w.f);
      if old(NoRoom(w.f)) {
        FullBlocks(size, size + moved);
      }
    }
  }

  /**
   What is written to the files is what is read back from them, directly or by
   the pointer to the block: behind what the file held before, the accepted words
   of its own writes in order, and all of its words unless it has no room left.
   */
  method WriteThenRead(fs: FileSys, writes: seq<Write>, f: nat, count: nat, direct: bool)
    returns (accepted: seq<nat>, data: seq<int>)
    requires fs.Valid() && fs.AllSized() && f in fs.zs && forall i :: 0 <= i < |writes| ==> writes[i].f in fs.zs
    modifies fs, fs.blockMap, fs.inodeMap
    ensures fs.Valid() && fs.AllSized() && f in fs.zs && |accepted| == |writes|
    ensures var all := old(fs.Holds(f)) + Joined(writes, accepted, f);
            data == if count < |all| then all[..count] else all
    ensures Joined(writes, accepted, f) <= Concat(writes, f)
    ensures !fs.NoRoom(f) ==> Joined(writes, accepted, f) == Concat(writes, f)
  {
    hide FileSys.Valid;
    hide FileSys.Holds;
    hide FileSys.NoRoom;
    hide FileSys.AllSized;
    hide Joined;
    hide Concat;
    accepted := fs.AppendAll(writes);
    data := fs.RootFsRead(f, count, 0, direct);
  }
}
