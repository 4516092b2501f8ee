/**
 The cache of disk blocks: four buffers, a doubly linked list of the idle ones
 from the least to the most recently released, and write-back on eviction. It
 behaves as a flat array of blocks.
 */
module BlockCache {
  import opened Device
  import opened LinkedLists

  const LRU_LEN := 4
  const NULL := -1

  // ----- the list of idle buffers -----

  /** REAR -> next -> ... -> FRONT. */
  datatype Links = Links(next: seq<int>, prev: seq<int>, rear: int, front: int)

  ghost predicate Linked(l: Links, q: seq<int>) {
    && |l.next| == |l.prev| == LRU_LEN && q != []
    && l.rear == q[0] && l.front == q[|q| - 1]
    && NoDup(q)
    && forall j :: 0 <= j < |q| ==> Node(l, q, j)
  }

  ghost predicate Node(l: Links, q: seq<int>, j: nat)
    requires |l.next| == |l.prev| == LRU_LEN && j < |q|
  {
    && 0 <= q[j] < LRU_LEN
    && l.next[q[j]] == (if j + 1 < |q| then q[j + 1] else NULL)
    && l.prev[q[j]] == (if j > 0 then q[j - 1] else NULL)
  }

  /** enqueue_buf: buffer i becomes the most recently used. */
  function Enqueue(l: Links, i: int): Links
    requires |l.next| == |l.prev| == LRU_LEN && 0 <= i < LRU_LEN && 0 <= l.front < LRU_LEN
  {
    Links(l.next[i := NULL][l.front := i], l.prev[i := l.front], l.rear, i)
  }

  lemma Enqueued(l: Links, q: seq<int>, i: int)
    requires Linked(l, q) && 0 <= i < LRU_LEN && i !in q
    ensures 0 <= l.front < LRU_LEN && Linked(Enqueue(l, i), q + [i])
  {
    assert Node(l, q, |q| - 1);
    var l', q' := Enqueue(l, i), q + [i];
    forall j | 0 <= j < |q'| ensures Node(l', q', j) {
      if j < |q| {
        assert Node(l, q, j);
      }
    }
  }

  /** rm_lru: buffer i leaves the list, wherever it is. */
  function Remove(l: Links, i: int): Links
    requires |l.next| == |l.prev| == LRU_LEN && 0 <= i < LRU_LEN
    requires NULL <= l.next[i] < LRU_LEN && NULL <= l.prev[i] < LRU_LEN
  {
    Links(if l.prev[i] != NULL then l.next[l.prev[i] := l.next[i]] else l.next,
          if l.next[i] != NULL then l.prev[l.next[i] := l.prev[i]] else l.prev,
          if l.rear == i then l.next[i] else l.rear,
          if l.front == i then l.prev[i] else l.front)
  }

  lemma Removed(l: Links, q: seq<int>, k: nat)
    requires Linked(l, q) && k < |q| && |q| >= 2
    ensures 0 <= q[k] < LRU_LEN && NULL <= l.next[q[k]] < LRU_LEN && NULL <= l.prev[q[k]] < LRU_LEN
    ensures Linked(Remove(l, q[k]), q[..k] + q[k + 1..]) && q[k] !in q[..k] + q[k + 1..]
  {
    assert Node(l, q, k);
    if k > 0 {
      assert Node(l, q, k - 1);
    }
    if k + 1 < |q| {
      assert Node(l, q, k + 1);
    }
    var l', q' := Remove(l, q[k]), q[..k] + q[k + 1..];
    forall j | 0 <= j < |q'| ensures Node(l', q', j) {
      assert Node(l, q, if j < k then j else j + 1);
    }
  }

  /** dequeue_buf: the least recently used buffer leaves the list. */
  function Dequeue(l: Links): Links
    requires |l.next| == |l.prev| == LRU_LEN && 0 <= l.rear < LRU_LEN && NULL <= l.next[l.rear] < LRU_LEN
  {
    var r := l.rear;
    var prev := if l.next[r] != NULL then l.prev[l.next[r] := NULL] else l.prev;
    Links(l.next[r := NULL], prev[r := NULL], l.next[r], l.front)
  }

  lemma Dequeued(l: Links, q: seq<int>)
    requires Linked(l, q) && |q| >= 2
    ensures 0 <= l.rear < LRU_LEN && NULL <= l.next[l.rear] < LRU_LEN && Linked(Dequeue(l), q[1..]) && q[0] !in q[1..]
  {
    assert Node(l, q, 0) && Node(l, q, 1);
    var l', q' := Dequeue(l), q[1..];
    forall j | 0 <= j < |q'| ensures Node(l', q', j) {
      assert Node(l, q, j + 1);
    }
  }

  /** init_buf: the buffers in order. */
  lemma InitialList(l: Links)
    requires l == Links([1, 2, 3, NULL], [NULL, 0, 1, 2], 0, 3)
    ensures Linked(l, [0, 1, 2, 3])
  {
  }

  // ----- the flat array -----

  /** A buffer; nr 0 is a buffer that holds no block yet. */
  datatype Buffer = Buffer(nr: nat, dirty: bool, count: int, initialised: bool, data: seq<int>)

  /** The buffer that holds block n, or NULL. */
  function Find(buf: seq<Buffer>, n: nat): (i: int)
    ensures i == NULL ==> forall j :: 0 <= j < |buf| ==> buf[j].nr != n
    ensures i != NULL ==> 0 <= i < |buf| && buf[i].nr == n && forall j :: 0 <= j < i ==> buf[j].nr != n
  {
    FindFrom(buf, n, 0)
  }

  function FindFrom(buf: seq<Buffer>, n: nat, k: nat): (i: int)
    requires k <= |buf|
    ensures i == NULL ==> forall j :: k <= j < |buf| ==> buf[j].nr != n
    ensures i != NULL ==> k <= i < |buf| && buf[i].nr == n && forall j :: k <= j < i ==> buf[j].nr != n
    decreases |buf| - k
  {
    if k == |buf| then NULL else if buf[k].nr == n then k else FindFrom(buf, n, k + 1)
  }

  /** What block n holds: its buffer's contents if it has one, else what is on disk. */
  function Holds(words: seq<int>, buf: seq<Buffer>, n: nat): seq<int>
    requires 0 < n < Blocks(words)
  {
    var i := Find(buf, n);
    if i == NULL then Block(words, n) else buf[i].data
  }

  ghost predicate Distinct(buf: seq<Buffer>) {
    forall i, j :: 0 <= i < j < |buf| && buf[i].nr == buf[j].nr ==> buf[i].nr == 0
  }

  ghost predicate Clean(words: seq<int>, b: Buffer) {
    b.nr < Blocks(words) && (b.nr == 0 ==> !b.dirty) && (b.nr > 0 ==> |b.data| == BLOCK_SIZE)
    && (b.nr > 0 && !b.dirty ==> b.data == Block(words, b.nr))
  }

  /** The device as its clients see it. */
  ghost function FlatOf(words: seq<int>, buf: seq<Buffer>): (f: seq<seq<int>>) {
    seq(Blocks(words), n requires 0 <= n < Blocks(words) => if n == 0 then Block(words, 0) else Holds(words, buf, n))
  }

  ghost predicate BufferOk(words: seq<int>, b: Buffer, isIdle: bool) {
    if isIdle then Clean(words, b) && b.count == 0
    else 0 < b.nr < Blocks(words) && |b.data| == BLOCK_SIZE && b.count == 1
  }

  ghost predicate CacheOk(words: seq<int>, buf: seq<Buffer>, idle: seq<int>) {
    && Whole(words) && |words| > 0 && |buf| == LRU_LEN && Distinct(buf)
    && forall i :: 0 <= i < LRU_LEN ==> BufferOk(words, buf[i], i in idle)
  }

  /** Writing a buffer back changes the disk, not what the clients see. */
  lemma FlushedFlat(words: seq<int>, buf: seq<Buffer>, i: nat)
    requires i < |buf| && Distinct(buf) && 0 < buf[i].nr < Blocks(words) && |buf[i].data| == BLOCK_SIZE
    ensures FlatOf(PutBlock(words, buf[i].nr, buf[i].data), buf) == FlatOf(words, buf)
  {
    var words' := PutBlock(words, buf[i].nr, buf[i].data);
    forall n | 0 <= n < Blocks(words) ensures FlatOf(words', buf)[n] == FlatOf(words, buf)[n] {
      PutBlockIs(words, buf[i].nr, buf[i].data, n);
    }
  }

  lemma FlushedOk(words: seq<int>, buf: seq<Buffer>, idle: seq<int>, i: nat)
    requires CacheOk(words, buf, idle) && i < LRU_LEN && buf[i].nr > 0
    ensures var words' := PutBlock(words, buf[i].nr, buf[i].data);
            && CacheOk(words', buf[i := buf[i].(dirty := false)], idle)
            && FlatOf(words', buf[i := buf[i].(dirty := false)]) == FlatOf(words, buf)
            && Block(words', buf[i].nr) == buf[i].data
  {
    assert BufferOk(words, buf[i], i in idle);
    var words' := PutBlock(words, buf[i].nr, buf[i].data);
    var buf' := buf[i := buf[i].(dirty := false)];
    FlushedFlat(words, buf, i);
    PutBlockIs(words, buf[i].nr, buf[i].data, buf[i].nr);
    MarkedFlat(words', buf, i, false);
    forall j | 0 <= j < LRU_LEN ensures BufferOk(words', buf'[j], j in idle) {
      assert BufferOk(words, buf[j], j in idle);
      PutBlockIs(words, buf[i].nr, buf[i].data, buf[j].nr);
    }
  }

  lemma FindSame(buf: seq<Buffer>, buf': seq<Buffer>, n: nat)
    requires |buf| == |buf'| && forall j :: 0 <= j < |buf| ==> buf'[j].nr == buf[j].nr
    ensures Find(buf', n) == Find(buf, n)
  {
  }

  /** A block is found in the buffer that holds it. */
  lemma FindIs(buf: seq<Buffer>, n: nat, i: nat)
    requires Distinct(buf) && i < |buf| && buf[i].nr == n > 0
    ensures Find(buf, n) == i
  {
  }

  lemma LoadedHolds(words: seq<int>, buf: seq<Buffer>, i: nat, b: Buffer, n: nat)
    requires Distinct(buf) && i < |buf| && Clean(words, buf[i]) && !buf[i].dirty && n < Blocks(words)
    requires 0 < b.nr < Blocks(words) && Find(buf, b.nr) == NULL && b.data == Block(words, b.nr)
    ensures Distinct(buf[i := b])
    ensures n > 0 ==> Holds(words, buf[i := b], n) == Holds(words, buf, n)
  {
    var buf' := buf[i := b];
    var j := Find(buf, n);
    if n > 0 && j != NULL && j != i {
      assert buf'[j].nr == n;
      FindIs(buf', n, j);
    } else if n == b.nr {
      FindIs(buf', n, i);
    }
  }

  lemma MarkedFlat(words: seq<int>, buf: seq<Buffer>, i: nat, dirty: bool)
    requires i < |buf|
    ensures FlatOf(words, buf[i := buf[i].(dirty := dirty)]) == FlatOf(words, buf)
  {
    var buf' := buf[i := buf[i].(dirty := dirty)];
    forall n | 0 <= n < Blocks(words) ensures FlatOf(words, buf')[n] == FlatOf(words, buf)[n] {
      FindSame(buf, buf', n);
    }
  }

  /** A clean buffer that takes in another block, straight from disk. */
  lemma LoadedOk(words: seq<int>, buf: seq<Buffer>, idle: seq<int>, i: nat, b: Buffer)
    requires CacheOk(words, buf, idle) && i < LRU_LEN && Clean(words, buf[i]) && !buf[i].dirty
    requires 0 < b.nr < Blocks(words) && Find(buf, b.nr) == NULL && b.data == Block(words, b.nr) && b.count == 1
    requires idle != [] && idle[0] == i && i !in idle[1..]
    ensures CacheOk(words, buf[i := b], idle[1..]) && FlatOf(words, buf[i := b]) == FlatOf(words, buf)
  {
    var buf' := buf[i := b];
    forall n | 0 <= n < Blocks(words) ensures FlatOf(words, buf')[n] == FlatOf(words, buf)[n] {
      LoadedHolds(words, buf, i, b, n);
    }
    forall j | 0 <= j < LRU_LEN ensures BufferOk(words, buf'[j], j in idle[1..]) {
      assert BufferOk(words, buf[j], j in idle);
    }
  }

  /** Which buffers are idle when one of them is taken out. */
  lemma TakenOut(words: seq<int>, buf: seq<Buffer>, idle: seq<int>, k: nat)
    requires CacheOk(words, buf, idle) && k < |idle| && 0 <= idle[k] < LRU_LEN && idle[k] !in idle[..k] + idle[k + 1..]
    requires buf[idle[k]].nr > 0
    ensures var i := idle[k];
            && CacheOk(words, buf[i := buf[i].(count := buf[i].count + 1)], idle[..k] + idle[k + 1..])
            && FlatOf(words, buf[i := buf[i].(count := buf[i].count + 1)]) == FlatOf(words, buf)
  {
    var i, idle' := idle[k], idle[..k] + idle[k + 1..];
    var buf' := buf[i := buf[i].(count := buf[i].count + 1)];
    forall n | 0 <= n < Blocks(words) ensures FlatOf(words, buf')[n] == FlatOf(words, buf)[n] {
      FindSame(buf, buf', n);
    }
    forall j | 0 <= j < LRU_LEN ensures BufferOk(words, buf'[j], j in idle') {
      assert BufferOk(words, buf[j], j in idle);
    }
  }

  lemma Released(words: seq<int>, buf: seq<Buffer>, idle: seq<int>, i: nat)
    requires CacheOk(words, buf, idle) && i < LRU_LEN && i !in idle && Clean(words, buf[i])
    ensures CacheOk(words, buf[i := buf[i].(count := 0)], idle + [i])
    ensures FlatOf(words, buf[i := buf[i].(count := 0)]) == FlatOf(words, buf)
  {
    var buf' := buf[i := buf[i].(count := 0)];
    forall n | 0 <= n < Blocks(words) ensures FlatOf(words, buf')[n] == FlatOf(words, buf)[n] {
      FindSame(buf, buf', n);
    }
    forall j | 0 <= j < LRU_LEN ensures BufferOk(words, buf'[j], j in idle + [i]) {
      assert BufferOk(words, buf[j], j in idle);
    }
  }

  lemma Filled(words: seq<int>, buf: seq<Buffer>, idle: seq<int>, i: nat, data: seq<int>)
    requires CacheOk(words, buf, idle) && i < LRU_LEN && i !in idle && |data| == BLOCK_SIZE
    ensures CacheOk(words, buf[i := buf[i].(data := data)], idle) && buf[i].nr < |FlatOf(words, buf)|
    ensures FlatOf(words, buf[i := buf[i].(data := data)]) == FlatOf(words, buf)[buf[i].nr := data]
  {
  }

  lemma InList(words: seq<int>, buf: seq<Buffer>, idle: seq<int>, l: Links)
    requires CacheOk(words, buf, idle) && Linked(l, idle)
    ensures |words| > 0 && |buf| == LRU_LEN && NoDup(idle) && |l.next| == |l.prev| == LRU_LEN
    ensures idle != [] && l.rear == idle[0] && l.front == idle[|idle| - 1]
    ensures forall k :: 0 <= k < |idle| ==> 0 <= idle[k] < LRU_LEN
  {
    forall k | 0 <= k < |idle| ensures 0 <= idle[k] < LRU_LEN {
      assert Node(l, idle, k);
    }
  }

  lemma FlatHeld(words: seq<int>, buf: seq<Buffer>, idle: seq<int>, i: nat)
    requires CacheOk(words, buf, idle) && i < LRU_LEN && buf[i].nr > 0
    ensures buf[i].nr < |FlatOf(words, buf)| && FlatOf(words, buf)[buf[i].nr] == buf[i].data
  {
  }

  /** Buffer i was idle and is not any more. */
  ghost predicate Took(idle: seq<int>, idle': seq<int>, i: int) {
    i in idle && |idle'| == |idle| - 1 && forall j :: j in idle <==> j == i || j in idle'
  }

  lemma TookFirst(idle: seq<int>)
    requires idle != [] && idle[0] !in idle[1..]
    ensures Took(idle, idle[1..], idle[0])
  {
  }

  /** Taking an idle buffer out of the list and into use. */
  lemma HitOk(words: seq<int>, buf: seq<Buffer>, idle: seq<int>, l: Links, i: int)
    requires CacheOk(words, buf, idle) && Linked(l, idle) && |idle| >= 2 && i in idle && 0 <= i < LRU_LEN
    requires |buf| == LRU_LEN && buf[i].nr > 0
    ensures |l.next| == |l.prev| == LRU_LEN && NULL <= l.next[i] < LRU_LEN && NULL <= l.prev[i] < LRU_LEN
    ensures Linked(Remove(l, i), Without(idle, i)) && i !in Without(idle, i) && Took(idle, Without(idle, i), i)
    ensures var buf' := buf[i := buf[i].(count := buf[i].count + 1)];
            CacheOk(words, buf', Without(idle, i)) && FlatOf(words, buf') == FlatOf(words, buf)
  {
    hide FlatOf;
    hide CacheOk;
    hide Linked;
    hide Remove;
    hide Without;
    InList(words, buf, idle, l);
    var k :| 0 <= k < |idle| && idle[k] == i;
    WithoutIs(idle, k);
    Removed(l, idle, k);
    TakenOut(words, buf, idle, k);
  }

  lemma CountOne(words: seq<int>, buf: seq<Buffer>, idle: seq<int>, i: nat)
    requires CacheOk(words, buf, idle) && i < LRU_LEN && i !in idle
    ensures buf[i].count == 1
  {
  }

  lemma MarkedOk(words: seq<int>, buf: seq<Buffer>, idle: seq<int>, i: nat)
    requires CacheOk(words, buf, idle) && i < LRU_LEN && i !in idle
    ensures var buf' := buf[i := buf[i].(dirty := true)];
            CacheOk(words, buf', idle) && FlatOf(words, buf') == FlatOf(words, buf) && Clean(words, buf'[i])
  {
  }

  lemma AllMarked(words: seq<int>, buf: seq<Buffer>, idle: seq<int>)
    requires CacheOk(words, buf, idle) && forall i :: 0 <= i < LRU_LEN && i !in idle ==> Clean(words, buf[i])
    ensures forall i :: 0 <= i < LRU_LEN ==> Clean(words, buf[i])
  {
  }

  lemma FlushKeeps(words: seq<int>, buf: seq<Buffer>, idle: seq<int>, i: nat)
    requires CacheOk(words, buf, idle) && i < LRU_LEN && buf[i].dirty
    requires forall j :: 0 <= j < LRU_LEN ==> Clean(words, buf[j])
    ensures 0 < buf[i].nr < Blocks(words) && |buf[i].data| == BLOCK_SIZE
    ensures var words', buf' := PutBlock(words, buf[i].nr, buf[i].data), buf[i := buf[i].(dirty := false)];
            forall j :: 0 <= j < LRU_LEN ==> Clean(words', buf'[j])
  {
  }

  lemma AllFlushed(words: seq<int>, buf: seq<Buffer>)
    requires forall i :: 0 <= i < |buf| ==> Clean(words, buf[i]) && !buf[i].dirty
    ensures forall n :: 0 <= n < Blocks(words) ==> Block(words, n) == FlatOf(words, buf)[n]
  {
  }

  lemma CleanIdle(words: seq<int>, buf: seq<Buffer>, idle: seq<int>, i: nat)
    requires CacheOk(words, buf, idle) && i < LRU_LEN && i in idle
    ensures Clean(words, buf[i])
  {
  }

  lemma DataSize(words: seq<int>, buf: seq<Buffer>, idle: seq<int>, i: nat)
    requires CacheOk(words, buf, idle) && i < LRU_LEN && i !in idle
    ensures |buf| == LRU_LEN && |buf[i].data| == BLOCK_SIZE
  {
  }

  class Cache {
    var words: seq<int>
    var buf: seq<Buffer>
    var next: seq<int>
    var prev: seq<int>
    var rear: int
    var front: int
    ghost var idle: seq<int>

    ghost function L(): Links
      reads this
    {
      Links(next, prev, rear, front)
    }

    ghost predicate Valid()
      reads this
    {
      CacheOk(words, buf, idle) && Linked(L(), idle)
    }

    ghost function Flat(): seq<seq<int>>
      reads this
    {
      FlatOf(words, buf)
    }

    ghost predicate Held(i: int)
      reads this
    {
      0 <= i < LRU_LEN && i !in idle
    }

    constructor (disk: seq<int>)
      requires Whole(disk) && |disk| > 0
      ensures Valid() && words == disk && idle == [0, 1, 2, 3]
      ensures Flat() == seq(Blocks(disk), n requires 0 <= n < Blocks(disk) => Block(disk, n))
    {
      words := disk;
      buf := seq(LRU_LEN, i => Buffer(0, false, 0, false, []));
      next, prev := [1, 2, 3, NULL], [NULL, 0, 1, 2];
      rear, front := 0, 3;
      idle := [0, 1, 2, 3];
      new;
      InitialList(L());
    }

    method RmLru(i: int)
      requires |next| == |prev| == LRU_LEN && 0 <= i < LRU_LEN
      requires NULL <= next[i] < LRU_LEN && NULL <= prev[i] < LRU_LEN
      modifies `next, `prev, `rear, `front
      ensures L() == Remove(old(L()), i)
    {
      if prev[i] != NULL {
        next := next[prev[i] := next[i]];
      }
      if next[i] != NULL {
        prev := prev[next[i] := prev[i]];
      }
      if rear == i {
        rear := next[i];
      }
      if front == i {
        front := prev[i];
      }
    }

    method DequeueBuf() returns (i: int)
      requires |next| == |prev| == LRU_LEN && 0 <= rear < LRU_LEN && NULL <= next[rear] < LRU_LEN
      modifies `next, `prev, `rear
      ensures i == old(rear) && L() == Dequeue(old(L()))
    {
      i := rear;
      if i == NULL {
        return;
      }
      if next[i] != NULL {
        prev := prev[next[i] := NULL];
      }
      rear := next[i];
      next := next[i := NULL];
      prev := prev[i := NULL];
    }

    method EnqueueBuf(i: int)
      requires |next| == |prev| == LRU_LEN && 0 <= i < LRU_LEN && 0 <= front < LRU_LEN
      modifies `next, `prev, `front
      ensures L() == Enqueue(old(L()), i)
    {
      next := next[i := NULL];
      prev := prev[i := front];
      next := next[front := i];
      front := i;
    }

    /** Write the block of buffer i back to the disk. */
    method FlushBlock(i: int)
      requires CacheOk(words, buf, idle) && 0 <= i < LRU_LEN && buf[i].nr > 0
      modifies `words, `buf
      ensures CacheOk(words, buf, idle) && Flat() == old(Flat()) && buf == old(buf)[i := old(buf)[i].(dirty := false)]
      ensures words == PutBlock(old(words), buf[i].nr, buf[i].data)
      ensures buf[i].nr < Blocks(words) && Block(words, buf[i].nr) == buf[i].data
    {
      hide FlatOf;
      FlushedOk(words, buf, idle, i);
      assert BufferOk(words, buf[i], i in idle);
      var r;
      words, r := IoWrite(words, buf[i].data, buf[i].nr * BLOCK_SIZE, BLOCK_SIZE);
      assert buf[i].data[..r] == buf[i].data;
      buf := buf[i := buf[i].(dirty := false)];
    }

    /**
     A block for a client that does not hold it yet, with two buffers idle: its
     contents are the last ones written. If the block is in no buffer, the least
     recently released one gives way.
     */
    method GetBlock(n: nat) returns (i: int)
      requires Valid() && 0 < n < Blocks(words) && |idle| >= 2
      requires forall j :: Held(j) ==> buf[j].nr != n
      modifies this
      ensures Valid() && Flat() == old(Flat()) && Held(i) && |words| == |old(words)|
      ensures buf[i].nr == n && n < |Flat()| && buf[i].data == Flat()[n] && Clean(words, buf[i])
      ensures var j := Find(old(buf), n);
              if j == NULL then i == old(idle)[0] && idle == old(idle)[1..]
              else i == j && idle == Without(old(idle), i)
      ensures Took(old(idle), idle, i)
      ensures forall j :: 0 <= j < LRU_LEN && j != i ==> buf[j] == old(buf)[j]
    {
      hide FlatOf;
      hide Linked;
      var k := 0;
      while k < LRU_LEN
        invariant 0 <= k <= LRU_LEN
        invariant forall j :: 0 <= j < k ==> buf[j].nr != n
      {
        if buf[k].nr == n {
          i := k;
          FindIs(buf, n, i);
          Hit(i);
          return;
        }
        k := k + 1;
      }
      i := Miss(n);
    }

    method Hit(i: int)
      requires Valid() && 0 <= i < LRU_LEN && i in idle && |idle| >= 2 && buf[i].nr > 0
      modifies `buf, `next, `prev, `rear, `front, `idle
      ensures Valid() && Flat() == old(Flat()) && Held(i)
      ensures buf[i].nr < |Flat()| && buf[i].data == Flat()[buf[i].nr] && Clean(words, buf[i])
      ensures idle == Without(old(idle), i) && Took(old(idle), idle, i)
              && buf == old(buf)[i := old(buf)[i].(count := old(buf)[i].count + 1)]
    {
      hide FlatOf;
      hide CacheOk;
      hide Linked;
      hide Remove;
      hide Without;
      InList(words, buf, idle, L());
      HitOk(words, buf, idle, L(), i);
      CleanIdle(words, buf, idle, i);
      RmLru(i);
      buf := buf[i := buf[i].(count := buf[i].count + 1)];
      idle := Without(idle, i);
      FlatHeld(words, buf, idle, i);
    }

    method Miss(n: nat) returns (i: int)
      requires Valid() && 0 < n < Blocks(words) && |idle| >= 2 && Find(buf, n) == NULL
      modifies this
      ensures Valid() && Flat() == old(Flat()) && Held(i) && |words| == |old(words)|
      ensures buf[i].nr == n && n < |Flat()| && buf[i].data == Flat()[n] && Clean(words, buf[i])
      ensures i == old(idle)[0] && idle == old(idle)[1..] && Took(old(idle), idle, i)
      ensures forall j :: 0 <= j < LRU_LEN && j != i ==> buf[j] == old(buf)[j]
    {
      hide FlatOf;
      hide Linked;
      hide Dequeue;
      hide Distinct;
      hide Took;
      InList(words, buf, idle, L());
      Dequeued(L(), idle);
      TookFirst(idle);
      i := DequeueBuf();
      assert BufferOk(words, buf[i], true);
      if buf[i].dirty {
        FlushBlock(i);
        FindSame(old(buf), buf, n);
      }
      assert BufferOk(words, buf[i], true);
      // init_block gives a buffer its page the first time
      var data, r := IoRead(words, n * BLOCK_SIZE, BLOCK_SIZE);
      var b := Buffer(n, false, 1, true, data);
      LoadedOk(words, buf, idle, i, b);
      buf := buf[i := b];
      idle := idle[1..];
      FlatHeld(words, buf, idle, i);
    }

    /** The holder of a buffer changes its block; until it says so the buffer need not be marked dirty. */
    method Fill(i: int, data: seq<int>)
      requires Valid() && Held(i) && |data| == BLOCK_SIZE
      modifies `buf
      ensures Valid() && buf == old(buf)[i := old(buf)[i].(data := data)]
      ensures buf[i].nr < |old(Flat())| && Flat() == old(Flat())[buf[i].nr := data]
    {
      hide FlatOf;
      hide Linked;
      Filled(words, buf, idle, i, data);
      buf := buf[i := buf[i].(data := data)];
    }

    /** Give back a buffer that is unchanged or marked dirty: it becomes the most recently used. */
    method PutBlockBuffer(i: int)
      requires Valid() && Held(i) && Clean(words, buf[i])
      modifies `buf, `next, `prev, `front, `idle
      ensures Valid() && Flat() == old(Flat()) && idle == old(idle) + [i]
      ensures buf == old(buf)[i := old(buf)[i].(count := 0)]
    {
      hide FlatOf;
      hide CacheOk;
      hide Linked;
      hide Enqueue;
      InList(words, buf, idle, L());
      Enqueued(L(), idle, i);
      Released(words, buf, idle, i);
      EnqueueBuf(i);
      CountOne(words, buf, idle, i);
      buf := buf[i := buf[i].(count := buf[i].count - 1)];
      if buf[i].count <= 0 {
        buf := buf[i := buf[i].(count := 0)];
      }
      assert buf == old(buf)[i := old(buf)[i].(count := 0)];
      idle := idle + [i];
    }

    method PutBlockBufferDirt(i: int)
      requires Valid() && Held(i)
      modifies `buf, `next, `prev, `front, `idle
      ensures Valid() && Flat() == old(Flat()) && idle == old(idle) + [i]
      ensures buf == old(buf)[i := old(buf)[i].(count := 0, dirty := true)]
    {
      hide FlatOf;
      hide Linked;
      MarkedOk(words, buf, idle, i);
      buf := buf[i := buf[i].(dirty := true)];
      PutBlockBuffer(i);
    }

    /** When every changed buffer is marked, flushing makes the disk the array that clients see. */
    method FlushAllBuffer()
      requires Valid() && forall i :: Held(i) ==> Clean(words, buf[i])
      modifies `words, `buf
      ensures Valid() && Flat() == old(Flat()) && |words| == |old(words)|
      ensures forall i :: 0 <= i < LRU_LEN ==> buf[i] == old(buf)[i].(dirty := false)
      ensures forall n :: 0 <= n < Blocks(words) ==> Block(words, n) == Flat()[n]
    {
      hide FlatOf;
      hide Linked;
      AllMarked(words, buf, idle);
      var j := 0;
      while j < LRU_LEN
        invariant 0 <= j <= LRU_LEN && CacheOk(words, buf, idle) && Flat() == old(Flat()) && |words| == |old(words)|
        invariant forall i :: 0 <= i < LRU_LEN ==> Clean(words, buf[i])
        invariant forall i :: 0 <= i < LRU_LEN ==> buf[i] == if i < j then old(buf)[i].(dirty := false) else old(buf)[i]
      {
        if buf[j].dirty {
          FlushKeeps(words, buf, idle, j);
          FlushBlock(j);
        }
        j := j + 1;
      }
      AllFlushed(words, buf);
    }

    /** A chunk written into a block by way of the cache is a chunk written into the flat array. */
    method WriteChunk(n: nat, off: nat, chunk: seq<int>)
      requires Valid() && 0 < n < Blocks(words) && |idle| >= 2 && off + |chunk| <= BLOCK_SIZE
      requires forall j :: Held(j) ==> buf[j].nr != n
      modifies this
      ensures Valid() && n < |old(Flat())| && |old(Flat())[n]| == BLOCK_SIZE
      ensures Flat() == old(Flat())[n := Put(old(Flat())[n], off, chunk)]
      ensures |words| == |old(words)| && |idle| == |old(idle)| && forall j :: Held(j) <==> old(Held(j))
      ensures forall j :: Held(j) ==> buf[j] == old(buf)[j]
    {
      hide FlatOf;
      hide CacheOk;
      hide Linked;
      hide Put;
      var i := GetBlock(n);
      DataSize(words, buf, idle, i);
      var data := buf[i].data;
      var k := 0;
      while k < |chunk|
        invariant 0 <= k <= |chunk| && |data| == BLOCK_SIZE
        invariant forall j :: 0 <= j < BLOCK_SIZE ==> data[j] == if off <= j < off + k then chunk[j - off]
                  else buf[i].data[j]
      {
        data := data[off + k := chunk[k]];
        k := k + 1;
      }
      assert data == Put(buf[i].data, off, chunk);
      Fill(i, data);
      MarkedOk(words, buf, idle, i);
      buf := buf[i := buf[i].(dirty := true)];
      PutBlockBuffer(i);
    }

    method ReadChunk(n: nat, off: nat, len: nat) returns (chunk: seq<int>)
      requires Valid() && 0 < n < Blocks(words) && |idle| >= 2 && off + len <= BLOCK_SIZE
      requires forall j :: Held(j) ==> buf[j].nr != n
      modifies this
      ensures Valid() && Flat() == old(Flat()) && n < |Flat()| && |Flat()[n]| == BLOCK_SIZE
      ensures chunk == Flat()[n][off..off + len]
      ensures |words| == |old(words)| && |idle| == |old(idle)| && forall j :: Held(j) <==> old(Held(j))
      ensures forall j :: Held(j) ==> buf[j] == old(buf)[j]
    {
      hide FlatOf;
      hide CacheOk;
      hide Linked;
      var i := GetBlock(n);
      DataSize(words, buf, idle, i);
      chunk := [];
      var k := 0;
      while k < len
        invariant 0 <= k <= len && chunk == buf[i].data[off..off + k]
      {
        chunk := chunk + [buf[i].data[off + k]];
        k := k + 1;
      }
      PutBlockBuffer(i);
    }
  }
}
