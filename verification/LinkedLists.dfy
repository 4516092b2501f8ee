/** Lists that are linked through a table. */
module LinkedLists {

  /** No further entry. */
  const END := -1

  /** The links lead from h through the entries of q, in order, to NULL. */
  ghost predicate Chained(next: seq<int>, q: seq<int>, h: int)
    decreases |q|
  {
    if q == [] then h == END
    else h == q[0] && 0 <= h < |next| && Chained(next, q[1..], next[h])
  }

  lemma {:induction false} ChainedKept(next: seq<int>, q: seq<int>, h: int, p: int, v: int)
    requires Chained(next, q, h) && 0 <= p < |next| && p !in q
    ensures Chained(next[p := v], q, h)
    decreases |q|
  {
    if q != [] {
      ChainedKept(next, q[1..], next[h], p, v);
    }
  }

  /** Hanging p behind the last entry. */
  lemma {:induction false} ChainedOn(next: seq<int>, q: seq<int>, h: int, p: int)
    requires Chained(next, q, h) && q != [] && 0 <= p < |next| && p !in q && q[|q| - 1] !in q[..|q| - 1]
    ensures 0 <= q[|q| - 1] < |next|
    ensures Chained(next[q[|q| - 1] := p][p := END], q + [p], h)
    decreases |q|
  {
    assert (q + [p])[1..] == q[1..] + [p];
    if |q| > 1 {
      assert q[1..][..|q| - 2] == q[1..|q| - 1];
      ChainedOn(next, q[1..], next[h], p);
    } else {
      var next' := next[q[0] := p][p := END];
      assert (q[1..] + [p])[1..] == [];
      assert Chained(next', [p], p);
    }
  }

  lemma ChainedCons(next: seq<int>, q: seq<int>, p: int)
    requires 0 <= p < |next| && Chained(next, q, next[p])
    ensures Chained(next, [p] + q, p)
  {
  }

  lemma ChainedHead(next: seq<int>, q: seq<int>, h: int)
    requires Chained(next, q, h) && q != []
    ensures h == q[0] && 0 <= h < |next| && Chained(next, q[1..], next[h])
  {
  }

  /** Linking t in between, behind entry i - 1. */
  lemma {:induction false} ChainedInsert(next: seq<int>, q: seq<int>, h: int, i: nat, t: int)
    requires Chained(next, q, h) && 0 < i <= |q| && 0 <= t < |next| && t !in q && NoDup(q)
    ensures 0 <= q[i - 1] < |next|
    ensures Chained(next[q[i - 1] := t][t := if i < |q| then q[i] else END], q[..i] + [t] + q[i..], h)
    decreases |q|
  {
    var v := if i < |q| then q[i] else END;
    var q' := q[..i] + [t] + q[i..];
    if i == 1 {
      ChainedKept(next, q[1..], next[h], h, t);
      ChainedKept(next[h := t], q[1..], next[h], t, v);
      assert q'[1..] == [t] + q[1..];
      assert q'[1..][1..] == q[1..];
      assert v == next[h];
    } else {
      ChainedInsert(next, q[1..], next[h], i - 1, t);
      assert q'[1..] == q[1..][..i - 1] + [t] + q[1..][i - 1..];
    }
  }

  /** Unlinking entry i, which is not the first. */
  lemma {:induction false} ChainedRemove(next: seq<int>, q: seq<int>, h: int, i: nat)
    requires Chained(next, q, h) && 0 < i < |q| && NoDup(q)
    ensures 0 <= q[i - 1] < |next| && 0 <= q[i] < |next|
    ensures Chained(next[q[i - 1] := next[q[i]]], q[..i] + q[i + 1..], h)
    decreases |q|
  {
    var q' := q[..i] + q[i + 1..];
    if i == 1 {
      var rest := q[1..];
      assert rest[1..] == q[2..];
      ChainedKept(next, q[2..], next[q[1]], h, next[q[1]]);
      assert q'[1..] == q[2..];
    } else {
      ChainedRemove(next, q[1..], next[h], i - 1);
      assert q'[1..] == q[1..][..i - 1] + q[1..][i..];
    }
  }

  ghost predicate NoDup(q: seq<int>) {
    forall i, j :: 0 <= i < j < |q| ==> q[i] != q[j]
  }

  /** Where the links lead from entry i. */
  lemma {:induction false} ChainedAt(next: seq<int>, q: seq<int>, h: int, i: nat)
    requires Chained(next, q, h) && i < |q|
    ensures 0 <= q[i] < |next| && next[q[i]] == if i + 1 < |q| then q[i + 1] else END
    decreases |q|
  {
    if i > 0 {
      ChainedAt(next, q[1..], next[h], i - 1);
    } else {
      assert Chained(next, q[1..], next[h]);
    }
  }

  /** The list without an entry that is in it once. */
  function Without(q: seq<int>, t: int): seq<int> {
    if q == [] then [] else if q[0] == t then q[1..] else [q[0]] + Without(q[1..], t)
  }

  function IndexIn(q: seq<int>, t: int): (k: nat)
    requires t in q
    ensures k < |q| && q[k] == t
  {
    if q[0] == t then 0 else 1 + IndexIn(q[1..], t)
  }

  lemma {:induction false} WithoutIs(q: seq<int>, k: nat)
    requires NoDup(q) && k < |q|
    ensures Without(q, q[k]) == q[..k] + q[k + 1..]
    decreases |q|
  {
    if k > 0 {
      WithoutIs(q[1..], k - 1);
      assert q[1..][..k - 1] == q[1..k];
      assert q[1..][k..] == q[k + 1..];
      assert q[..k] == [q[0]] + q[1..k];
    }
  }
}
