/** The bits of a map as a set of numbers. */
module BitSets {
  import opened Bitmap

  function Range(a: int, n: int): (s: set<int>)
    ensures forall k :: k in s <==> a <= k < a + n
    decreases if n < 0 then 0 else n
  {
    if n <= 0 then {} else Range(a, n - 1) + {a + n - 1}
  }

  function On(ws: seq<bv32>): (s: set<int>)
    ensures forall k :: k in s <==> 0 <= k < 32 * |ws| && Bit(ws, k)
  {
    OnUpTo(ws, 32 * |ws|)
  }

  function OnUpTo(ws: seq<bv32>, n: nat): (s: set<int>)
    requires n <= 32 * |ws|
    ensures forall k :: k in s <==> 0 <= k < n && Bit(ws, k)
  {
    if n == 0 then {} else if Bit(ws, n - 1) then OnUpTo(ws, n - 1) + {n - 1} else OnUpTo(ws, n - 1)
  }

  lemma OnSet(ws: seq<bv32>, ws': seq<bv32>, a: nat, n: nat)
    requires Became(ws, ws', a, n, true) && a + n <= 32 * |ws|
    ensures On(ws') == On(ws) + Range(a, n)
  {
  }

  lemma OnCleared(ws: seq<bv32>, ws': seq<bv32>, a: nat, n: nat)
    requires Became(ws, ws', a, n, false)
    ensures On(ws') == On(ws) - Range(a, n)
  {
    hide Bit;
    hide On;
    forall k ensures k in On(ws') <==> k in On(ws) - Range(a, n) {
    }
  }

  lemma NoneOn(ws: seq<bv32>)
    requires forall k :: 0 <= k < 32 * |ws| ==> !Bit(ws, k)
    ensures On(ws) == {}
  {
    hide Bit;
    forall k ensures k !in On(ws) {
    }
  }

  lemma ClearIs(ws: seq<bv32>, a: int, n: int)
    requires n >= 0
    ensures Clear(ws, a, n) <==> 0 <= a && a + n <= 32 * |ws| && Range(a, n) !! On(ws)
  {
  }
}
