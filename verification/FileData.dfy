/**
 The words of a file: a list of blocks on the device and a size. Writing a chunk
 at the end appends to the file and leaves every other file alone.
 */
module FileData {
  import opened Device

  /** Where word i of a file is. */
  function Place(zs: seq<nat>, i: nat): nat
    requires i / BLOCK_SIZE < |zs|
  {
    zs[i / BLOCK_SIZE] * BLOCK_SIZE + i % BLOCK_SIZE
  }

  /** The number of blocks that size words need. */
  function BlocksFor(size: nat): nat {
    (size + BLOCK_SIZE - 1) / BLOCK_SIZE
  }

  /** The blocks of a file are on the device, and no block is there twice. */
  ghost predicate OnDevice(words: seq<int>, zs: seq<nat>) {
    && (forall k :: 0 <= k < |zs| ==> (zs[k] + 1) * BLOCK_SIZE <= |words|)
    && forall j, k :: 0 <= j < k < |zs| ==> zs[j] != zs[k]
  }

  function Word(words: seq<int>, zs: seq<nat>, i: nat): int {
    if i / BLOCK_SIZE < |zs| && Place(zs, i) < |words| then words[Place(zs, i)] else 0
  }

  /** What the file holds. */
  function Content(words: seq<int>, zs: seq<nat>, size: nat): (c: seq<int>)
    ensures |c| == size
  {
    seq(size, i requires 0 <= i < size => Word(words, zs, i))
  }

  /** How far the words reach once something up to place end has been written. */
  function Extent(n: nat, end: nat): nat {
    if n < end then end else n
  }

  /** The words with d put in at pos, over what is there and on behind it. */
  function Spliced(c: seq<int>, pos: nat, d: seq<int>): (r: seq<int>)
    requires pos <= |c|
    ensures |r| == Extent(|c|, pos + |d|)
  {
    c[..pos] + d + if pos + |d| < |c| then c[pos + |d|..] else []
  }

  /** What is put in piece by piece is put in. */
  lemma SplicedOn(c: seq<int>, pos: nat, data: seq<int>, k: nat, len: nat)
    requires pos <= |c| && k + len <= |data|
    ensures Spliced(Spliced(c, pos, data[..k]), pos + k, data[k..k + len]) == Spliced(c, pos, data[..k + len])
  {
    assert data[..k + len] == data[..k] + data[k..k + len];
  }

  /** At the end it appends, and nothing changes nothing. */
  lemma SplicedAtEnd(c: seq<int>, pos: nat, d: seq<int>)
    requires pos <= |c|
    ensures pos == |c| ==> Spliced(c, pos, d) == c + d
    ensures d == [] ==> Spliced(c, pos, d) == c
  {
  }

  /** A chunk inside one block of a file, written over its words or on behind them. */
  lemma Overwritten(words: seq<int>, words': seq<int>, zs: seq<nat>, n: nat, pos: nat, chunk: seq<int>)
    requires OnDevice(words, zs) && pos <= n && pos / BLOCK_SIZE < |zs| && pos % BLOCK_SIZE + |chunk| <= BLOCK_SIZE
    requires Place(zs, pos) + |chunk| <= |words| && words' == Put(words, Place(zs, pos), chunk)
    ensures Content(words', zs, Extent(n, pos + |chunk|)) == Spliced(Content(words, zs, n), pos, chunk)
  {
    var c, c' := Content(words, zs, n), Content(words', zs, Extent(n, pos + |chunk|));
    forall i | 0 <= i < |c'| ensures c'[i] == Spliced(c, pos, chunk)[i] {
      if pos <= i < pos + |chunk| {
        Inside(zs, pos, i, |chunk|);
      } else {
        Outside(words, zs, pos, i, |chunk|);
      }
    }
  }

  lemma Inside(zs: seq<nat>, pos: nat, i: nat, len: nat)
    requires pos / BLOCK_SIZE < |zs| && pos % BLOCK_SIZE + len <= BLOCK_SIZE && pos <= i < pos + len
    ensures i / BLOCK_SIZE == pos / BLOCK_SIZE && Place(zs, i) == Place(zs, pos) + (i - pos)
  {
  }

  lemma Outside(words: seq<int>, zs: seq<nat>, pos: nat, i: nat, len: nat)
    requires OnDevice(words, zs) && pos / BLOCK_SIZE < |zs| && pos % BLOCK_SIZE + len <= BLOCK_SIZE
             && (i < pos || pos + len <= i)
    ensures i / BLOCK_SIZE < |zs| ==> !(Place(zs, pos) <= Place(zs, i) < Place(zs, pos) + len)
  {
  }

  /** A file that does not have the block written to stays as it is. */
  lemma Undisturbed(words: seq<int>, words': seq<int>, zs: seq<nat>, size: nat, z: nat, off: nat, chunk: seq<int>)
    requires OnDevice(words, zs) && z !in zs && off + |chunk| <= BLOCK_SIZE && (z + 1) * BLOCK_SIZE <= |words|
    requires words' == Put(words, z * BLOCK_SIZE + off, chunk)
    ensures Content(words', zs, size) == Content(words, zs, size)
  {
  }

  /** A chunk inside a block, as it is read. */
  lemma ChunkRead(words: seq<int>, zs: seq<nat>, size: nat, pos: nat, len: nat)
    requires OnDevice(words, zs) && pos + len <= size && len > 0 && pos % BLOCK_SIZE + len <= BLOCK_SIZE
    requires pos / BLOCK_SIZE < |zs|
    ensures Place(zs, pos) + len <= |words|
    ensures words[Place(zs, pos)..Place(zs, pos) + len] == Content(words, zs, size)[pos..pos + len]
  {
  }

  /** A further block changes nothing as long as the size stays. */
  lemma BlockAdded(words: seq<int>, zs: seq<nat>, size: nat, b: nat)
    requires BlocksFor(size) <= |zs|
    ensures Content(words, zs + [b], size) == Content(words, zs, size)
  {
  }
}
