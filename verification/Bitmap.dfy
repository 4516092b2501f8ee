/**
 Bitmaps of 32-bit words, bit 0 the highest of the first word: searching runs of
 clear bits from below and from above, setting and clearing runs. Every
 operation is stated on the row of bits that the words stand for.
 */
module Bitmap {

  const EINVAL := 22

  // ----- single bits -----

  /** The table of masks: the words with one bit set, from the highest down. */
  function Mask(j: nat): bv32
    requires j < 32
  {
    if j == 0 then 0x8000_0000 else Mask(j - 1) >> 1
  }

  predicate Single(m: bv32) {
    m != 0 && m & (m - 1) == 0
  }

  lemma SingleHalf(m: bv32)
    requires Single(m) && m > 1
    ensures Single(m >> 1) && m >> 1 < m
  {
  }

  lemma Lowest()
    ensures Mask(31) == 1
  {
    assert Mask(4) == 0x0800_0000;
    assert Mask(8) == 0x0080_0000;
    assert Mask(12) == 0x0008_0000;
    assert Mask(16) == 0x0000_8000;
    assert Mask(20) == 0x0000_0800;
    assert Mask(24) == 0x0000_0080;
    assert Mask(28) == 0x0000_0008;
  }

  lemma {:induction false} Halves(j: nat)
    requires j < 31
    ensures Mask(j + 1) == Mask(j) >> 1 && Mask(j) > 1
    decreases 31 - j
  {
    if j == 30 {
      Lowest();
    } else {
      Halves(j + 1);
    }
  }

  lemma {:induction false} IsSingle(j: nat)
    requires j < 32
    ensures Single(Mask(j))
  {
    if j > 0 {
      IsSingle(j - 1);
      Halves(j - 1);
      SingleHalf(Mask(j - 1));
    }
  }

  lemma {:induction false} MaskDrops(j: nat, k: nat)
    requires j < k < 32
    ensures Mask(k) < Mask(j)
    decreases k
  {
    IsSingle(k - 1);
    Halves(k - 1);
    SingleHalf(Mask(k - 1));
    if j < k - 1 {
      MaskDrops(j, k - 1);
    }
  }

  lemma MaskIs(j: nat, k: nat)
    requires j < 32 && k < 32
    ensures Single(Mask(j)) && Single(Mask(k)) && (Mask(j) == Mask(k) <==> j == k)
  {
    hide Mask;
    hide Single;
    IsSingle(j);
    IsSingle(k);
    if j < k {
      MaskDrops(j, k);
    } else if k < j {
      MaskDrops(k, j);
    }
  }

  // ----- words -----

  function And(w: bv32, m: bv32): bv32 {
    w & m
  }

  function Or(w: bv32, m: bv32): bv32 {
    w | m
  }

  function Off(w: bv32, m: bv32): bv32 {
    w & !m
  }

  predicate Test(w: bv32, j: nat)
    requires j < 32
  {
    And(w, Mask(j)) != 0
  }

  lemma SinglesMeet(m: bv32, n: bv32)
    requires Single(m) && Single(n)
    ensures m != n ==> And(m, n) == 0
    ensures m == n ==> And(m, n) == n
    ensures n != 0
  {
  }

  lemma OrAnd(w: bv32, m: bv32, n: bv32)
    ensures And(m, n) == 0 ==> And(Or(w, m), n) == And(w, n)
    ensures And(m, n) == n ==> And(Or(w, m), n) == n
  {
  }

  lemma OffAnd(w: bv32, m: bv32, n: bv32)
    ensures And(m, n) == 0 ==> And(Off(w, m), n) == And(w, n)
    ensures And(m, n) == n ==> And(Off(w, m), n) == 0
  {
  }

  lemma TestSet(w: bv32, j: nat, k: nat)
    requires j < 32 && k < 32
    ensures Test(Or(w, Mask(j)), k) <==> j == k || Test(w, k)
  {
    hide Mask;
    hide Single;
    hide And;
    hide Or;
    MaskIs(j, k);
    SinglesMeet(Mask(j), Mask(k));
    OrAnd(w, Mask(j), Mask(k));
  }

  lemma TestCleared(w: bv32, j: nat, k: nat)
    requires j < 32 && k < 32
    ensures Test(Off(w, Mask(j)), k) <==> j != k && Test(w, k)
  {
    hide Mask;
    hide Single;
    hide And;
    hide Off;
    MaskIs(j, k);
    SinglesMeet(Mask(j), Mask(k));
    OffAnd(w, Mask(j), Mask(k));
  }

  // ----- rows of bits -----

  predicate Bit(ws: seq<bv32>, k: nat)
    requires k < 32 * |ws|
  {
    Test(ws[k / 32], k % 32)
  }

  /** The n bits from a on are clear. */
  ghost predicate Clear(ws: seq<bv32>, a: int, n: int) {
    0 <= a && a + n <= 32 * |ws| && forall k :: a <= k < a + n ==> !Bit(ws, k)
  }

  /** The n bits from a on have become v, all others are as before. */
  ghost predicate Became(ws: seq<bv32>, ws': seq<bv32>, a: int, n: int, v: bool) {
    |ws'| == |ws| && forall k :: 0 <= k < 32 * |ws| ==> (Bit(ws', k) <==> if a <= k < a + n then v else Bit(ws, k))
  }

  lemma SetOne(ws: seq<bv32>, a: nat)
    requires a < 32 * |ws|
    ensures Became(ws, ws[a / 32 := Or(ws[a / 32], Mask(a % 32))], a, 1, true)
  {
    hide Test;
    hide Mask;
    hide Or;
    hide Off;
    var ws' := ws[a / 32 := Or(ws[a / 32], Mask(a % 32))];
    forall k | 0 <= k < 32 * |ws| ensures Bit(ws', k) <==> k == a || Bit(ws, k) {
      TestSet(ws[a / 32], a % 32, k % 32);
    }
  }

  lemma ClearOne(ws: seq<bv32>, a: nat)
    requires a < 32 * |ws|
    ensures Became(ws, ws[a / 32 := Off(ws[a / 32], Mask(a % 32))], a, 1, false)
  {
    hide Test;
    hide Mask;
    hide Or;
    hide Off;
    var ws' := ws[a / 32 := Off(ws[a / 32], Mask(a % 32))];
    forall k | 0 <= k < 32 * |ws| ensures Bit(ws', k) <==> k != a && Bit(ws, k) {
      TestCleared(ws[a / 32], a % 32, k % 32);
    }
  }

  lemma BitOf(ws: seq<bv32>, i: nat, j: nat)
    requires i < |ws| && j < 32
    ensures Bit(ws, i * 32 + j) <==> Test(ws[i], j)
  {
  }

  // ----- searching -----

  /** r is the lowest place from start on where n clear bits begin. */
  ghost predicate LowestRun(ws: seq<bv32>, start: int, n: int, r: int) {
    start <= r && Clear(ws, r, n) && forall a :: start <= a < r ==> !Clear(ws, a, n)
  }

  ghost predicate HighestRun(ws: seq<bv32>, n: int, r: int) {
    Clear(ws, r, n) && forall a :: a > r ==> !Clear(ws, a, n)
  }

  /** Whether the search from below answers at all: it never takes a whole map, however clear. */
  predicate Searchable(ws: seq<bv32>, start: int, n: int) {
    0 < n < 32 * |ws| && start < 32 * |ws|
  }

  /** The state of the search from below, at bit k with the last count bits clear. */
  ghost predicate SearchedTo(ws: seq<bv32>, start: int, n: int, k: int, count: int) {
    && 0 <= start && start + count <= k <= 32 * |ws| && 0 <= count
    && Clear(ws, k - count, count) && (k - count > start ==> Bit(ws, k - count - 1))
    && forall a :: start <= a && a + n <= k ==> !Clear(ws, a, n)
  }

  lemma SearchOn(ws: seq<bv32>, start: int, n: int, k: int, count: int)
    requires SearchedTo(ws, start, n, k, count) && k < 32 * |ws| && count < n
    ensures Bit(ws, k) ==> SearchedTo(ws, start, n, k + 1, 0)
    ensures !Bit(ws, k) && count + 1 == n ==> LowestRun(ws, start, n, k + 1 - n)
    ensures !Bit(ws, k) && count + 1 < n ==> SearchedTo(ws, start, n, k + 1, count + 1)
  {
  }

  method SearchFrom(bits: array<bv32>, start: nat, num: int) returns (r: int)
    ensures r >= 0 ==> Searchable(bits[..], start, num) && LowestRun(bits[..], start, num, r)
    ensures r < 0 ==> r == -EINVAL
    ensures r < 0 && Searchable(bits[..], start, num) ==> forall a :: start <= a ==> !Clear(bits[..], a, num)
  {
    hide Bit;
    hide Test;
    hide Mask;
    var count := 0;
    if num >= bits.Length * 32 || start >= bits.Length * 32 {
      return -EINVAL;
    }
    var i, j := start / 32, start % 32;
    while i < bits.Length
      invariant 0 <= i <= bits.Length && (j == 0 || i == start / 32) && 0 <= j < 32
      invariant num > 0 ==> SearchedTo(bits[..], start, num, i * 32 + j, count) && count < num
      invariant count >= 0
    {
      while j < 32
        invariant 0 <= j <= 32 && count >= 0
        invariant num > 0 ==> SearchedTo(bits[..], start, num, i * 32 + j, count) && count < num
      {
        BitOf(bits[..], i, j);
        if num > 0 {
          SearchOn(bits[..], start, num, i * 32 + j, count);
        }
        if !Test(bits[i], j) {
          count := count + 1;
          if count == num {
            return i * 32 + j - count + 1;
          }
        } else {
          count := 0;
        }
        j := j + 1;
      }
      j := 0;
      i := i + 1;
    }
    return -EINVAL;
  }

  /** The state of the search from above, with the bits from k on searched and the first count of them clear. */
  ghost predicate SearchedDown(ws: seq<bv32>, n: int, k: int, count: int) {
    && 0 <= k <= k + count <= 32 * |ws|
    && Clear(ws, k, count) && (k + count < 32 * |ws| ==> Bit(ws, k + count))
    && forall a :: a >= k ==> !Clear(ws, a, n)
  }

  lemma SearchDown(ws: seq<bv32>, n: int, k: int, count: int)
    requires SearchedDown(ws, n, k, count) && k > 0 && count < n
    ensures Bit(ws, k - 1) ==> SearchedDown(ws, n, k - 1, 0)
    ensures !Bit(ws, k - 1) && count + 1 == n ==> HighestRun(ws, n, k - 1)
    ensures !Bit(ws, k - 1) && count + 1 < n ==> SearchedDown(ws, n, k - 1, count + 1)
  {
  }

  method SearchReverse(bits: array<bv32>, num: int) returns (r: int)
    ensures r >= 0 ==> 0 < num < 32 * bits.Length && HighestRun(bits[..], num, r)
    ensures r < 0 ==> r == -EINVAL
    ensures r < 0 && 0 < num < 32 * bits.Length ==> forall a :: !Clear(bits[..], a, num)
  {
    hide Bit;
    hide Test;
    hide Mask;
    var count := 0;
    if num >= bits.Length * 32 {
      return -EINVAL;
    }
    var i := bits.Length - 1;
    while i >= 0
      invariant -1 <= i < bits.Length && count >= 0
      invariant num > 0 ==> SearchedDown(bits[..], num, i * 32 + 32, count) && count < num
    {
      var j := 31;
      while j >= 0
        invariant -1 <= j < 32 && count >= 0
        invariant num > 0 ==> SearchedDown(bits[..], num, i * 32 + j + 1, count) && count < num
      {
        BitOf(bits[..], i, j);
        if num > 0 {
          SearchDown(bits[..], num, i * 32 + j + 1, count);
        }
        if !Test(bits[i], j) {
          count := count + 1;
          if count == num {
            return i * 32 + j;
          }
        } else {
          count := 0;
        }
        j := j - 1;
      }
      i := i - 1;
    }
    assert num > 0 ==> forall a :: Clear(bits[..], a, num) ==> a >= 0;
    return -EINVAL;
  }

  // ----- setting and clearing -----

  lemma BecameOn(ws: seq<bv32>, ws1: seq<bv32>, ws2: seq<bv32>, a: nat, n: nat, v: bool)
    requires Became(ws, ws1, a, n, v) && Became(ws1, ws2, a + n, 1, v)
    ensures Became(ws, ws2, a, n + 1, v)
  {
  }

  method ClearAll(bits: array<bv32>)
    modifies bits
    ensures forall k :: 0 <= k < 32 * bits.Length ==> !Bit(bits[..], k)
  {
    var i := 0;
    while i < bits.Length
      invariant 0 <= i <= bits.Length && forall j :: 0 <= j < i ==> bits[j] == 0
    {
      bits[i] := 0;
      i := i + 1;
    }
    forall k | 0 <= k < 32 * bits.Length ensures !Bit(bits[..], k) {
      ZeroTest(k % 32);
    }
  }

  lemma ZeroTest(j: nat)
    requires j < 32
    ensures !Test(0, j)
  {
  }

  method SetBit(bits: array<bv32>, k: nat) returns (r: int)
    modifies bits
    ensures if k >= 32 * bits.Length then r == -EINVAL && bits[..] == old(bits[..])
            else r == 0 && Became(old(bits[..]), bits[..], k, 1, true)
  {
    hide Bit;
    hide Mask;
    hide Or;
    if k >= bits.Length * 32 {
      return -EINVAL;
    }
    SetOne(bits[..], k);
    bits[k / 32] := Or(bits[k / 32], Mask(k % 32));
    assert bits[..] == old(bits[..])[k / 32 := Or(old(bits[..])[k / 32], Mask(k % 32))];
    return 0;
  }

  /** Refuses a run that reaches the end of the map, even one that would fit. */
  method SetNbits(bits: array<bv32>, start: nat, len: nat) returns (r: int)
    modifies bits
    ensures if start + len >= 32 * bits.Length then r == -EINVAL && bits[..] == old(bits[..])
            else r == 0 && Became(old(bits[..]), bits[..], start, len, true)
  {
    hide Bit;
    hide Mask;
    hide Or;
    if start + len >= bits.Length * 32 {
      return -EINVAL;
    }
    var i := 0;
    while i < len
      invariant 0 <= i <= len && Became(old(bits[..]), bits[..], start, i, true)
    {
      var k := start + i;
      SetOne(bits[..], k);
      ghost var was := bits[..];
      bits[k / 32] := Or(bits[k / 32], Mask(k % 32));
      assert bits[..] == was[k / 32 := Or(was[k / 32], Mask(k % 32))];
      BecameOn(old(bits[..]), was, bits[..], start, i, true);
      i := i + 1;
    }
    return 0;
  }

  method ClearNbits(bits: array<bv32>, start: nat, len: nat) returns (r: int)
    modifies bits
    ensures if start + len >= 32 * bits.Length then r == -EINVAL && bits[..] == old(bits[..])
            else r == 0 && Became(old(bits[..]), bits[..], start, len, false)
  {
    hide Bit;
    hide Mask;
    hide Off;
    if start + len >= bits.Length * 32 {
      return -EINVAL;
    }
    var i := 0;
    while i < len
      invariant 0 <= i <= len && Became(old(bits[..]), bits[..], start, i, false)
    {
      var k := start + i;
      ClearOne(bits[..], k);
      ghost var was := bits[..];
      bits[k / 32] := Off(bits[k / 32], Mask(k % 32));
      assert bits[..] == was[k / 32 := Off(was[k / 32], Mask(k % 32))];
      BecameOn(old(bits[..]), was, bits[..], start, i, false);
      i := i + 1;
    }
    return 0;
  }

  /** A bit just past the end is not refused, so it must not be asked for. */
  method IsBitOn(bits: array<bv32>, k: nat) returns (on: bool)
    requires k != 32 * bits.Length
    ensures on <==> k < 32 * bits.Length && Bit(bits[..], k)
  {
    hide Test;
    if k > bits.Length * 32 {
      return false;
    }
    return Test(bits[k / 32], k % 32);
  }

  function Ones(ws: seq<bv32>, k: nat): nat
    requires k <= 32 * |ws|
  {
    if k == 0 then 0 else Ones(ws, k - 1) + if Bit(ws, k - 1) then 1 else 0
  }

  method CountBits(bits: array<bv32>, ones: bool) returns (count: nat)
    ensures count == if ones then Ones(bits[..], 32 * bits.Length)
            else 32 * bits.Length - Ones(bits[..], 32 * bits.Length)
  {
    hide Bit;
    hide Test;
    count := 0;
    var i := 0;
    while i < bits.Length
      invariant 0 <= i <= bits.Length
      invariant count == if ones then Ones(bits[..], 32 * i) else 32 * i - Ones(bits[..], 32 * i)
    {
      var w := bits[i];
      var j := 0;
      while j < 32
        invariant 0 <= j <= 32
        invariant count == if ones then Ones(bits[..], 32 * i + j) else 32 * i + j - Ones(bits[..], 32 * i + j)
      {
        BitOf(bits[..], i, j);
        assert Ones(bits[..], 32 * i + j + 1) == Ones(bits[..], 32 * i + j)
               + if Bit(bits[..], 32 * i + j) then 1 else 0;
        if ones && Test(w, j) {
          count := count + 1;
        } else if !ones && !Test(w, j) {
          count := count + 1;
        }
        j := j + 1;
      }
      i := i + 1;
    }
  }
}
