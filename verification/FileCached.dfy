/**
 Files over the write-back cache: the chunks that the file layer writes may go
 through the four buffers instead of to the device itself. What a reader of the
 cache sees, and what is on disk once it is flushed, are the files.
 */
module FileCached {
  import opened Device
  import opened BlockCache
  import FileData
  import FileSystem

  /** The clients of a cache see these words. */
  ghost predicate Shows(flat: seq<seq<int>>, words: seq<int>) {
    |flat| == Blocks(words) && forall n :: 0 <= n < Blocks(words) ==> flat[n] == Block(words, n)
  }

  /** A chunk put into one block of the flat array is the chunk put on the device. */
  lemma ShowsChunk(flat: seq<seq<int>>, words: seq<int>, c: Chunk)
    requires Shows(flat, words) && Fits(c, Blocks(words))
    ensures |flat[c.block]| == BLOCK_SIZE
    ensures Shows(flat[c.block := Put(flat[c.block], c.off, c.data)], Put(words, c.block * BLOCK_SIZE + c.off, c.data))
  {
    var words' := Put(words, c.block * BLOCK_SIZE + c.off, c.data);
    forall n | 0 <= n < Blocks(words)
      ensures Block(words', n) == if n == c.block then Put(flat[n], c.off, c.data) else flat[n]
    {
      BlockOfChunk(words, c, n);
    }
  }

  lemma BlockOfChunk(words: seq<int>, c: Chunk, n: nat)
    requires Fits(c, Blocks(words)) && n < Blocks(words)
    ensures Block(Put(words, c.block * BLOCK_SIZE + c.off, c.data), n)
         == if n == c.block then Put(Block(words, n), c.off, c.data) else Block(words, n)
  {
  }

  lemma SliceOfBlock(words: seq<int>, n: nat, off: nat, len: nat)
    requires n < Blocks(words) && off + len <= BLOCK_SIZE
    ensures n * BLOCK_SIZE + off + len <= |words|
    ensures Block(words, n)[off..off + len] == words[n * BLOCK_SIZE + off..n * BLOCK_SIZE + off + len]
  {
    SliceOfSlice(words, n * BLOCK_SIZE, n * BLOCK_SIZE + BLOCK_SIZE, off, len);
  }

  lemma SliceOfSlice(words: seq<int>, a: nat, b: nat, off: nat, len: nat)
    requires a <= b <= |words| && off + len <= b - a
    ensures words[a..b][off..off + len] == words[a + off..a + off + len]
  {
    var x, y := words[a..b][off..off + len], words[a + off..a + off + len];
    assert forall i :: 0 <= i < len ==> x[i] == words[a..b][off + i] == y[i];
  }

  /** A device is known by its blocks. */
  lemma SameBlocks(a: seq<int>, b: seq<int>)
    requires Whole(a) && |a| == |b| && forall n :: 0 <= n < Blocks(a) ==> Block(a, n) == Block(b, n)
    ensures a == b
  {
    forall i | 0 <= i < |a| ensures a[i] == b[i] {
      var n := i / BLOCK_SIZE;
      assert a[i] == Block(a, n)[i % BLOCK_SIZE] && b[i] == Block(b, n)[i % BLOCK_SIZE];
    }
  }

  /** All buffers are idle. */
  ghost predicate Resting(cache: Cache)
    reads cache
  {
    cache.Valid() && |cache.idle| >= 2 && forall j :: !cache.Held(j)
  }

  /** Chunks written one after the other by way of the cache. */
  method WriteChunks(cache: Cache, cs: seq<Chunk>, ghost words: seq<int>)
    requires Resting(cache) && Shows(cache.Flat(), words) && |cache.words| == |words|
    requires forall c :: c in cs ==> Fits(c, Blocks(words))
    modifies cache
    ensures Resting(cache) && Shows(cache.Flat(), Replayed(words, cs)) && |cache.words| == |words|
    decreases |cs|
  {
    hide Cache.Valid;
    hide Cache.Flat;
    hide Put;
    hide Shows;
    if cs == [] {
      return;
    }
    var c, before := cs[|cs| - 1], cs[..|cs| - 1];
    assert c in cs;
    WriteChunks(cache, before, words);
    ShowsChunk(cache.Flat(), Replayed(words, before), c);
    cache.WriteChunk(c.block, c.off, c.data);
    assert cs == before + [c];
    ReplayedOn(words, before, c);
  }

  /**
   A file system whose chunks all go through a cache of what the device held at
   first. Whatever is evicted on the way, a chunk of a file read through the cache
   is that stretch of the file.
   */
  method ReadCached(fs: FileSystem.FileSys, cache: Cache, cs: seq<Chunk>, f: nat, pos: nat, len: nat)
    returns (chunk: seq<int>)
    requires fs.Valid() && fs.AllSized() && f in fs.zs && cs == fs.trace
    requires Resting(cache) && cache.words == fs.origin && Shows(cache.Flat(), fs.origin)
    requires pos % BLOCK_SIZE + len <= BLOCK_SIZE && 0 < len && pos + len <= |fs.Holds(f)|
    modifies cache
    ensures chunk == fs.Holds(f)[pos..pos + len]
  {
    hide Cache.Valid;
    hide Cache.Flat;
    hide FileSystem.StateOk;
    hide FileData.Content;
    hide Replayed;
    fs.ChunkThere(f, pos, len);
    var n := fs.CurrentZone(f, pos / BLOCK_SIZE);
    WriteChunks(cache, cs, fs.origin);
    chunk := cache.ReadChunk(n, pos % BLOCK_SIZE, len);
    SliceOfBlock(fs.disk, n, pos % BLOCK_SIZE, len);
  }

  /**
   Once such a cache is flushed, the disk is the file system's device, and every
   file on it holds what was appended.
   */
  method FlushCached(fs: FileSystem.FileSys, cache: Cache, cs: seq<Chunk>)
    requires fs.Valid() && cs == fs.trace && Resting(cache) && cache.words == fs.origin
             && Shows(cache.Flat(), fs.origin)
    modifies cache
    ensures cache.words == fs.disk
    ensures forall f :: f in fs.zs && f < |fs.inodes| ==>
              FileData.Content(cache.words, fs.zs[f], fs.inodes[f].size) == fs.Holds(f)
  {
    hide Cache.Valid;
    hide Cache.Flat;
    WriteChunks(cache, cs, fs.origin);
    cache.FlushAllBuffer();
    SameBlocks(cache.words, fs.disk);
  }
}
