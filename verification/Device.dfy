/** The block device: a row of words, read and written a word at a time. */
module Device {

  const BLOCK_SIZE := 256

  /** The words with data put at off, as far as the device reaches. */
  function Put(words: seq<int>, off: nat, data: seq<int>): (r: seq<int>)
    requires off + |data| <= |words|
    ensures |r| == |words|
    ensures forall i :: 0 <= i < |words| ==> r[i] == if off <= i < off + |data| then data[i - off] else words[i]
  {
    words[..off] + data + words[off + |data|..]
  }

  /** How much of a transfer of len words at off the device can serve. */
  function Served(words: seq<int>, off: nat, len: nat): (n: nat)
    ensures n <= len && (n > 0 ==> off + n <= |words|)
    ensures off + len <= |words| ==> n == len
  {
    if off >= |words| then 0 else if off + len > |words| then |words| - off else len
  }

  /** blk_dev_io_read_write with the write mode set. */
  method IoWrite(words: seq<int>, buf: seq<int>, off: nat, len: nat) returns (words': seq<int>, r: nat)
    requires |buf| == len
    ensures r == Served(words, off, len)
    ensures words' == if r == 0 then words else Put(words, off, buf[..r])
  {
    words' := words;
    if off >= |words| {
      return words, 0;
    }
    r := len;
    if off + len > |words| {
      r := |words| - off;
    }
    var i := 0;
    while i < r
      invariant 0 <= i <= r && |words'| == |words|
      invariant forall j :: 0 <= j < |words| ==> words'[j] == if off <= j < off + i then buf[j - off] else words[j]
    {
      words' := words'[off + i := buf[i]];
      i := i + 1;
    }
  }

  /** blk_dev_io_read_write with the write mode clear. */
  method IoRead(words: seq<int>, off: nat, len: nat) returns (buf: seq<int>, r: nat)
    ensures r == Served(words, off, len)
    ensures buf == if r == 0 then [] else words[off..off + r]
  {
    buf := [];
    if off >= |words| {
      return [], 0;
    }
    r := len;
    if off + len > |words| {
      r := |words| - off;
    }
    var i := 0;
    while i < r
      invariant 0 <= i <= r && buf == words[off..off + i]
    {
      buf := buf + [words[off + i]];
      i := i + 1;
    }
  }

  predicate Whole(words: seq<int>) {
    |words| % BLOCK_SIZE == 0
  }

  function Blocks(words: seq<int>): nat {
    |words| / BLOCK_SIZE
  }

  function Block(words: seq<int>, n: nat): (b: seq<int>)
    requires n < Blocks(words)
    ensures |b| == BLOCK_SIZE
  {
    words[n * BLOCK_SIZE..n * BLOCK_SIZE + BLOCK_SIZE]
  }

  function PutBlock(words: seq<int>, n: nat, data: seq<int>): (r: seq<int>)
    requires n < Blocks(words) && |data| == BLOCK_SIZE
    ensures |r| == |words|
  {
    Put(words, n * BLOCK_SIZE, data)
  }

  lemma PutBlockIs(words: seq<int>, n: nat, data: seq<int>, m: nat)
    requires n < Blocks(words) && |data| == BLOCK_SIZE && m < Blocks(words)
    ensures Block(PutBlock(words, n, data), m) == if m == n then data else Block(words, m)
  {
  }

  /** A write of some words into one block. */
  datatype Chunk = Chunk(block: nat, off: nat, data: seq<int>)

  predicate Fits(c: Chunk, blocks: nat) {
    0 < c.block < blocks && c.off + |c.data| <= BLOCK_SIZE
  }

  /** The words after some chunks have been written, one after the other. */
  function Replayed(words: seq<int>, cs: seq<Chunk>): (r: seq<int>)
    requires forall c :: c in cs ==> Fits(c, Blocks(words))
    ensures |r| == |words|
  {
    if cs == [] then words
    else
      var c := cs[|cs| - 1];
      assert c in cs && Fits(c, Blocks(words));
      Put(Replayed(words, cs[..|cs| - 1]), c.block * BLOCK_SIZE + c.off, c.data)
  }

  lemma ReplayedOn(words: seq<int>, cs: seq<Chunk>, c: Chunk)
    requires (forall d :: d in cs ==> Fits(d, Blocks(words))) && Fits(c, Blocks(words))
    ensures forall d :: d in cs + [c] ==> Fits(d, Blocks(words))
    ensures Replayed(words, cs + [c]) == Put(Replayed(words, cs), c.block * BLOCK_SIZE + c.off, c.data)
  {
    assert (cs + [c])[..|cs|] == cs;
  }
}
