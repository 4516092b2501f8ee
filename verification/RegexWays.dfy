/**
 The ways in which a tree matches: which alternatives are picked, and where each
 pass through a pair of parentheses begins and ends. The match that ordered
 backtracking finds is the first of all ways, and what it captures are the last
 passes of that way.
 */
module RegexWays {
  import opened RegexSyntax
  import opened RegexMeaning

  /** A parenthesis passed at a place, or a decision: 0 is to go on or in, 1 is to stop or to take a later one. */
  datatype Sign = Open(no: nat, at: nat) | Shut(no: nat, at: nat) | Pick(choice: nat)

  type Way = seq<Sign>

  // ----- ways of trees -----

  /** Tree re matches s from i to j in the way t. */
  ghost predicate Goes(re: Re, s: Text, i: nat, j: nat, t: Way)
    requires i <= j <= |s|
    decreases j - i, re, 0
  {
    match re
    case Nothing => i == j && t == []
    case Bol => i == j == 0 && t == []
    case Eol => i == j == |s| && t == []
    case Lit(w) => j == i + |w| && LitStep(w, s, i) && t == []
    case Group(n, alts) =>
      |t| >= 2 && t[0] == Open(n, i) && t[|t| - 1] == Shut(n, j) && GoesA(alts, s, i, j, t[1..|t| - 1])
    case Star(x) => GoesAgain(x, s, i, j, t)
    case Plus(x) =>
      exists m: nat, c: nat :: i <= m <= j && c <= |t| && Goes(x, s, i, m, t[..c]) && GoesAgain(x, s, m, j, t[c..])
    case Opt(x) => (i == j && t == [Pick(1)]) || (t != [] && t[0] == Pick(0) && Goes(x, s, i, j, t[1..]))
    case _ => j == i + 1 && OneStep(re, s, i) && t == []
  }

  /** Zero or more times x: one decision before each x, and one to stop. */
  ghost predicate GoesAgain(x: Re, s: Text, i: nat, j: nat, t: Way)
    requires i <= j <= |s|
    decreases j - i, x, 1
  {
    || (i == j && t == [Pick(1)])
    || (t != [] && t[0] == Pick(0) &&
        exists m: nat, c: nat ::
          i < m <= j && c < |t| && Goes(x, s, i, m, t[1..][..c]) && GoesAgain(x, s, m, j, t[1..][c..]))
  }

  ghost predicate GoesB(b: Branch, s: Text, i: nat, j: nat, t: Way)
    requires i <= j <= |s|
    decreases j - i, b, 0
  {
    match b
    case Nil => i == j && t == []
    case Cons(p, tl) =>
      exists m: nat, c: nat :: i <= m <= j && c <= |t| && Goes(p, s, i, m, t[..c]) && GoesB(tl, s, m, j, t[c..])
  }

  ghost predicate GoesA(a: Alts, s: Text, i: nat, j: nat, t: Way)
    requires i <= j <= |s|
    decreases j - i, a, 0
  {
    match a
    case ANil => false
    case ACons(b, rest) =>
      && t != []
      && ((t[0] == Pick(0) && GoesB(b, s, i, j, t[1..])) || (t[0] == Pick(1) && GoesA(rest, s, i, j, t[1..])))
  }

  // ----- every match goes some way, and every way is a match -----

  lemma {:induction false} WayMatches(re: Re, s: Text, i: nat, j: nat, t: Way)
    requires i <= j <= |s| && Goes(re, s, i, j, t)
    ensures Matches(AsCoded, re, s, i, j)
    decreases j - i, re, 0
  {
    match re
    case Group(n, alts) => WayMatchesA(alts, s, i, j, t[1..|t| - 1]);
    case Star(x) => WayMany(x, s, i, j, t);
    case Plus(x) =>
      var m: nat, c: nat :| i <= m <= j && c <= |t| && Goes(x, s, i, m, t[..c]) && GoesAgain(x, s, m, j, t[c..]);
      WayMatches(x, s, i, m, t[..c]);
      WayMany(x, s, m, j, t[c..]);
    case Opt(x) =>
      if !(i == j && t == [Pick(1)]) {
        WayMatches(x, s, i, j, t[1..]);
      }
    case _ =>
  }

  lemma {:induction false} WayMany(x: Re, s: Text, i: nat, j: nat, t: Way)
    requires i <= j <= |s| && GoesAgain(x, s, i, j, t)
    ensures Many(AsCoded, x, s, i, j)
    decreases j - i, x, 1
  {
    if i < j {
      var m: nat, c: nat :|
        i < m <= j && c < |t| && Goes(x, s, i, m, t[1..][..c]) && GoesAgain(x, s, m, j, t[1..][c..]);
      WayMatches(x, s, i, m, t[1..][..c]);
      WayMany(x, s, m, j, t[1..][c..]);
    }
  }

  lemma {:induction false} WayMatchesB(b: Branch, s: Text, i: nat, j: nat, t: Way)
    requires i <= j <= |s| && GoesB(b, s, i, j, t)
    ensures MatchesB(AsCoded, b, s, i, j)
    decreases j - i, b, 0
  {
    if b.Cons? {
      var m: nat, c: nat :|
        i <= m <= j && c <= |t| && Goes(b.head, s, i, m, t[..c]) && GoesB(b.tail, s, m, j, t[c..]);
      WayMatches(b.head, s, i, m, t[..c]);
      WayMatchesB(b.tail, s, m, j, t[c..]);
    }
  }

  lemma {:induction false} WayMatchesA(a: Alts, s: Text, i: nat, j: nat, t: Way)
    requires i <= j <= |s| && GoesA(a, s, i, j, t)
    ensures MatchesA(AsCoded, a, s, i, j)
    decreases j - i, a, 0
  {
    if t[0] == Pick(0) {
      WayMatchesB(a.first, s, i, j, t[1..]);
    } else {
      WayMatchesA(a.rest, s, i, j, t[1..]);
    }
  }

  lemma AgainOne(x: Re, s: Text, i: nat, m: nat, j: nat, t1: Way, t2: Way)
    requires i < m <= j <= |s| && Goes(x, s, i, m, t1) && GoesAgain(x, s, m, j, t2)
    ensures GoesAgain(x, s, i, j, [Pick(0)] + t1 + t2)
  {
    var t, c := [Pick(0)] + t1 + t2, |t1|;
    assert t[1..] == t1 + t2;
    assert t[1..][..c] == t1 && t[1..][c..] == t2;
  }

  lemma PlusOne(x: Re, s: Text, i: nat, m: nat, j: nat, t1: Way, t2: Way)
    requires i <= m <= j <= |s| && Goes(x, s, i, m, t1) && GoesAgain(x, s, m, j, t2)
    ensures Goes(Plus(x), s, i, j, t1 + t2)
  {
    var t, c := t1 + t2, |t1|;
    assert t[..c] == t1 && t[c..] == t2;
  }

  lemma PlusTwo(x: Re, s: Text, i: nat, j: nat, t: Way) returns (m: nat, t1: Way, t2: Way)
    requires i <= j <= |s| && Goes(Plus(x), s, i, j, t)
    ensures i <= m <= j && t == t1 + t2 && Goes(x, s, i, m, t1) && GoesAgain(x, s, m, j, t2)
  {
    var c: nat;
    m, c :| i <= m <= j && c <= |t| && Goes(x, s, i, m, t[..c]) && GoesAgain(x, s, m, j, t[c..]);
    t1, t2 := t[..c], t[c..];
  }

  lemma AgainTwo(x: Re, s: Text, i: nat, j: nat, t: Way) returns (m: nat, t1: Way, t2: Way)
    requires i <= j <= |s| && GoesAgain(x, s, i, j, t) && t != [Pick(1)]
    ensures i < m <= j && t == [Pick(0)] + (t1 + t2) && Goes(x, s, i, m, t1) && GoesAgain(x, s, m, j, t2)
  {
    hide Goes;
    var c: nat;
    m, c :| i < m <= j && c < |t| && Goes(x, s, i, m, t[1..][..c]) && GoesAgain(x, s, m, j, t[1..][c..]);
    t1, t2 := t[1..][..c], t[1..][c..];
    assert t == [Pick(0)] + t[1..];
    assert t[1..] == t1 + t2;
  }

  lemma AgainStop(x: Re, s: Text, i: nat, j: nat)
    requires i <= j <= |s|
    ensures GoesAgain(x, s, i, j, [Pick(1)]) <==> i == j
  {
    hide Goes;
  }

  lemma BranchOne(p: Re, tl: Branch, s: Text, i: nat, m: nat, j: nat, t1: Way, t2: Way)
    requires i <= m <= j <= |s| && Goes(p, s, i, m, t1) && GoesB(tl, s, m, j, t2)
    ensures GoesB(Cons(p, tl), s, i, j, t1 + t2)
  {
    var t, c := t1 + t2, |t1|;
    assert t[..c] == t1 && t[c..] == t2;
  }

  lemma BranchTwo(b: Branch, s: Text, i: nat, j: nat, t: Way) returns (m: nat, t1: Way, t2: Way)
    requires i <= j <= |s| && b.Cons? && GoesB(b, s, i, j, t)
    ensures i <= m <= j && t == t1 + t2 && Goes(b.head, s, i, m, t1) && GoesB(b.tail, s, m, j, t2)
  {
    var c: nat;
    m, c :| i <= m <= j && c <= |t| && Goes(b.head, s, i, m, t[..c]) && GoesB(b.tail, s, m, j, t[c..]);
    t1, t2 := t[..c], t[c..];
  }

  lemma GroupOne(n: nat, alts: Alts, s: Text, i: nat, j: nat, t: Way)
    requires i <= j <= |s| && GoesA(alts, s, i, j, t)
    ensures Goes(Group(n, alts), s, i, j, [Open(n, i)] + t + [Shut(n, j)])
  {
    var t' := [Open(n, i)] + t + [Shut(n, j)];
    assert t'[1..|t'| - 1] == t;
  }

  lemma {:induction false} MatchGoes(re: Re, s: Text, i: nat, j: nat) returns (t: Way)
    requires i <= j <= |s| && Matches(AsCoded, re, s, i, j)
    ensures Goes(re, s, i, j, t)
    decreases j - i, re, 0
  {
    t := [];
    match re
    case Group(n, alts) =>
      var t1 := MatchGoesA(alts, s, i, j);
      GroupOne(n, alts, s, i, j, t1);
      t := [Open(n, i)] + t1 + [Shut(n, j)];
    case Star(x) =>
      t := ManyGoes(x, s, i, j);
    case Plus(x) =>
      var m: nat :| i <= m <= j && Matches(AsCoded, x, s, i, m) && Many(AsCoded, x, s, m, j);
      var t1 := MatchGoes(x, s, i, m);
      var t2 := ManyGoes(x, s, m, j);
      PlusOne(x, s, i, m, j, t1, t2);
      t := t1 + t2;
    case Opt(x) =>
      if i == j {
        t := [Pick(1)];
      } else {
        var t1 := MatchGoes(x, s, i, j);
        t := [Pick(0)] + t1;
        assert t[1..] == t1;
      }
    case _ =>
  }

  lemma {:induction false} ManyGoes(x: Re, s: Text, i: nat, j: nat) returns (t: Way)
    requires i <= j <= |s| && Many(AsCoded, x, s, i, j)
    ensures GoesAgain(x, s, i, j, t)
    decreases j - i, x, 1
  {
    if i == j {
      t := [Pick(1)];
    } else {
      var m := FirstOfMany(AsCoded, x, s, i, j);
      var t1 := MatchGoes(x, s, i, m);
      var t2 := ManyGoes(x, s, m, j);
      AgainOne(x, s, i, m, j, t1, t2);
      t := [Pick(0)] + t1 + t2;
    }
  }

  lemma {:induction false} MatchGoesB(b: Branch, s: Text, i: nat, j: nat) returns (t: Way)
    requires i <= j <= |s| && MatchesB(AsCoded, b, s, i, j)
    ensures GoesB(b, s, i, j, t)
    decreases j - i, b, 0
  {
    t := [];
    if b.Cons? {
      var m: nat :| i <= m <= j && Matches(AsCoded, b.head, s, i, m) && MatchesB(AsCoded, b.tail, s, m, j);
      var t1 := MatchGoes(b.head, s, i, m);
      var t2 := MatchGoesB(b.tail, s, m, j);
      BranchOne(b.head, b.tail, s, i, m, j, t1, t2);
      t := t1 + t2;
    }
  }

  lemma {:induction false} MatchGoesA(a: Alts, s: Text, i: nat, j: nat) returns (t: Way)
    requires i <= j <= |s| && MatchesA(AsCoded, a, s, i, j)
    ensures GoesA(a, s, i, j, t)
    decreases j - i, a, 0
  {
    if MatchesB(AsCoded, a.first, s, i, j) {
      var t1 := MatchGoesB(a.first, s, i, j);
      t := [Pick(0)] + t1;
      assert t[1..] == t1;
    } else {
      var t1 := MatchGoesA(a.rest, s, i, j);
      t := [Pick(1)] + t1;
      assert t[1..] == t1;
    }
  }

  // ----- a tree with width goes no way that consumes nothing -----

  lemma {:induction false} WayWide(re: Re, s: Text, i: nat, j: nat, t: Way)
    requires i <= j <= |s| && Wf(re) && HasWidth(re) && Goes(re, s, i, j, t)
    ensures i < j
    decreases re
  {
    match re
    case Group(n, alts) => WayWideA(alts, s, i, j, t[1..|t| - 1]);
    case Plus(x) =>
      var m: nat, c: nat :| i <= m <= j && c <= |t| && Goes(x, s, i, m, t[..c]) && GoesAgain(x, s, m, j, t[c..]);
      WayWide(x, s, i, m, t[..c]);
    case _ =>
  }

  lemma {:induction false} WayWideB(b: Branch, s: Text, i: nat, j: nat, t: Way)
    requires i <= j <= |s| && WfB(b) && HasWidthB(b) && GoesB(b, s, i, j, t)
    ensures i < j
    decreases b
  {
    var m: nat, c: nat :|
      i <= m <= j && c <= |t| && Goes(b.head, s, i, m, t[..c]) && GoesB(b.tail, s, m, j, t[c..]);
    if HasWidth(b.head) {
      WayWide(b.head, s, i, m, t[..c]);
    } else {
      WayWideB(b.tail, s, m, j, t[c..]);
    }
  }

  lemma {:induction false} WayWideA(a: Alts, s: Text, i: nat, j: nat, t: Way)
    requires i <= j <= |s| && WfA(a) && HasWidthA(a) && GoesA(a, s, i, j, t)
    ensures i < j
    decreases a
  {
    if t[0] == Pick(0) {
      WayWideB(a.first, s, i, j, t[1..]);
    } else {
      WayWideA(a.rest, s, i, j, t[1..]);
    }
  }
}
