/**
 What a match captures: the search takes the first of all ways from its place,
 and reports for each group the last pass of that way through it.
 */
module RegexCaptures {
  import opened RegexSyntax
  import opened RegexMeaning
  import opened RegexWays
  import opened RegexFirst
  import opened RegexSpelling

  // ----- the first way -----

  /** Way t from i to j comes before all other ways from i. */
  ghost predicate FirstWay(a: Alts, s: Text, i: nat, j: nat, t: Way) {
    && i <= j <= |s| && GoesA(a, s, i, j, t)
    && forall k: nat, u: Way :: i <= k <= |s| && GoesA(a, s, i, k, u) ==> Precedes(t, u)
  }

  lemma ChoiceGoes(a: Alts, s: Text, i: nat, j: nat, t: Way)
    requires i <= j <= |s|
    ensures GoesS(Push(Choice(a), Done), s, i, j, t) <==> GoesA(a, s, i, j, t)
  {
    if GoesA(a, s, i, j, t) {
      Join(Choice(a), Done, s, i, j, j, t, []);
      assert t + [] == t;
    }
    if GoesS(Push(Choice(a), Done), s, i, j, t) {
      var m, t1, t2 := Part(Choice(a), Done, s, i, j, t);
      assert t1 + [] == t1;
    }
  }

  /** A search hits if there is a way at all, ends where the first way ends and reports what that way captures. */
  lemma FindFirst(a: Alts, s: Text, i: nat) returns (t: Way)
    requires a.ACons? && WfA(a) && i <= |s|
    ensures Find(a, s, i).Miss? ==> forall j: nat, u: Way :: i <= j <= |s| ==> !GoesA(a, s, i, j, u)
    ensures var r := Find(a, s, i);
            r.Hit? ==> FirstWay(a, s, i, r.end, t) && r.starts == Opens(t) && r.ends == Shuts(t)
  {
    hide GoesS;
    hide GoesA;
    hide Run;
    var st := Push(Choice(a), Done);
    t := RunFirst(st, s, i);
    forall j: nat, u: Way | i <= j <= |s| ensures GoesS(st, s, i, j, u) <==> GoesA(a, s, i, j, u) {
      ChoiceGoes(a, s, i, j, u);
    }
  }

  // ----- the last sign of a group -----

  predicate Marked(e: Sign, open: bool, n: nat) {
    if open then e.Open? && e.no == n else e.Shut? && e.no == n
  }

  /** The sign at p is the last at which group n is opened, or shut. */
  ghost predicate LastMark(t: Way, open: bool, n: nat, p: nat) {
    p < |t| && Marked(t[p], open, n) && forall q :: p < q < |t| ==> !Marked(t[q], open, n)
  }

  function Reported(open: bool, t: Way): map<nat, nat> {
    if open then Opens(t) else Shuts(t)
  }

  /** A way reports the place of a group's last sign, and nothing for a group without one. */
  lemma {:induction false} ReportsLast(t: Way, open: bool, n: nat)
    ensures n in Reported(open, t) <==> exists p :: 0 <= p < |t| && Marked(t[p], open, n)
    ensures forall p: nat :: LastMark(t, open, n, p) ==> n in Reported(open, t) && Reported(open, t)[n] == t[p].at
    decreases |t|
  {
    if t != [] {
      var rest := t[1..];
      ReportsLast(rest, open, n);
      if n in Reported(open, rest) {
        var q :| 0 <= q < |rest| && Marked(rest[q], open, n);
        assert Marked(t[q + 1], open, n);
      }
      if p :| 0 < p < |t| && Marked(t[p], open, n) {
        assert Marked(rest[p - 1], open, n);
      }
      forall p: nat | LastMark(t, open, n, p) ensures n in Reported(open, t) && Reported(open, t)[n] == t[p].at {
        if p > 0 {
          assert LastMark(rest, open, n, p - 1);
        }
      }
    }
  }

  lemma {:induction false} ReportedJoin(open: bool, t1: Way, t2: Way, n: nat)
    ensures n in Reported(open, t1 + t2) <==> n in Reported(open, t1) || n in Reported(open, t2)
    ensures n in Reported(open, t2) ==> Reported(open, t1 + t2)[n] == Reported(open, t2)[n]
    ensures n in Reported(open, t1) && n !in Reported(open, t2) ==> Reported(open, t1 + t2)[n] == Reported(open, t1)[n]
    decreases |t1|
  {
    if t1 == [] {
      assert t1 + t2 == t2;
    } else {
      ReportedJoin(open, t1[1..], t2, n);
      assert (t1 + t2)[1..] == t1[1..] + t2;
    }
  }

  // ----- trees in which no group holds one of its own number -----

  function Numbers(re: Re): set<nat> {
    match re
    case Group(n, alts) => {n} + NumbersA(alts)
    case Star(x) => Numbers(x)
    case Plus(x) => Numbers(x)
    case Opt(x) => Numbers(x)
    case _ => {}
  }

  function NumbersB(b: Branch): set<nat> {
    if b.Nil? then {} else Numbers(b.head) + NumbersB(b.tail)
  }

  function NumbersA(a: Alts): set<nat> {
    if a.ANil? then {} else NumbersB(a.first) + NumbersA(a.rest)
  }

  predicate Apart(re: Re) {
    match re
    case Group(n, alts) => n !in NumbersA(alts) && ApartA(alts)
    case Star(x) => Apart(x)
    case Plus(x) => Apart(x)
    case Opt(x) => Apart(x)
    case _ => true
  }

  predicate ApartB(b: Branch) {
    b.Nil? || (Apart(b.head) && ApartB(b.tail))
  }

  predicate ApartA(a: Alts) {
    a.ANil? || (ApartB(a.first) && ApartA(a.rest))
  }

  /** Group n with the alternatives g is part of the tree. */
  predicate Holds(re: Re, n: nat, g: Alts) {
    match re
    case Group(no, alts) => (no == n && alts == g) || HoldsA(alts, n, g)
    case Star(x) => Holds(x, n, g)
    case Plus(x) => Holds(x, n, g)
    case Opt(x) => Holds(x, n, g)
    case _ => false
  }

  predicate HoldsB(b: Branch, n: nat, g: Alts) {
    b.Cons? && (Holds(b.head, n, g) || HoldsB(b.tail, n, g))
  }

  predicate HoldsA(a: Alts, n: nat, g: Alts) {
    a.ACons? && (HoldsB(a.first, n, g) || HoldsA(a.rest, n, g))
  }

  // ----- the last pass through a group -----

  predicate Signs(t: Way, n: nat) {
    n in Opens(t) || n in Shuts(t)
  }

  /** What way t from i to j reports for n is a stretch of its own that the alternatives g match. */
  ghost predicate Passes(s: Text, i: nat, j: nat, t: Way, n: nat, g: Alts)
    requires i <= j <= |s|
  {
    && n in Opens(t) && n in Shuts(t)
    && i <= Opens(t)[n] <= Shuts(t)[n] <= j
    && MatchesA(AsCoded, g, s, Opens(t)[n], Shuts(t)[n])
  }

  lemma Silence(e: Sign, t: Way, n: nat)
    requires e.Pick? || e.no != n
    ensures Signs([e] + t, n) <==> Signs(t, n)
    ensures forall s: Text, i: nat, j: nat, g: Alts :: i <= j <= |s| && Passes(s, i, j, t, n, g) ==>
              Passes(s, i, j, [e] + t, n, g)
  {
    Signed(e, t);
  }

  lemma NoSigns(n: nat)
    ensures !Signs([Pick(1)], n)
  {
    assert [Pick(1)] + [] == [Pick(1)];
    Signed(Pick(1), []);
  }

  lemma SignsJoin(t1: Way, t2: Way, n: nat)
    ensures Signs(t1 + t2, n) <==> Signs(t1, n) || Signs(t2, n)
  {
    ReportedJoin(true, t1, t2, n);
    ReportedJoin(false, t1, t2, n);
  }

  lemma PassesJoin(s: Text, i: nat, m: nat, j: nat, t1: Way, t2: Way, n: nat, g: Alts)
    requires i <= m <= j <= |s|
    requires if Signs(t2, n) then Passes(s, m, j, t2, n, g) else Passes(s, i, m, t1, n, g)
    ensures Passes(s, i, j, t1 + t2, n, g)
  {
    hide MatchesA;
    ReportedJoin(true, t1, t2, n);
    ReportedJoin(false, t1, t2, n);
  }

  lemma Around(no: nat, i: nat, j: nat, t: Way, n: nat)
    ensures var t' := [Open(no, i)] + t + [Shut(no, j)];
            && (n != no ==> (n in Opens(t') <==> n in Opens(t)) && (n in Shuts(t') <==> n in Shuts(t)))
            && (n != no && n in Opens(t) ==> Opens(t')[n] == Opens(t)[n])
            && (n != no && n in Shuts(t) ==> Shuts(t')[n] == Shuts(t)[n])
            && no in Opens(t') && no in Shuts(t') && Shuts(t')[no] == j && (no !in Opens(t) ==> Opens(t')[no] == i)
  {
    var t' := [Open(no, i)] + t + [Shut(no, j)];
    assert [Open(no, i)] + (t + [Shut(no, j)]) == t';
    Signed(Open(no, i), t + [Shut(no, j)]);
    assert [Shut(no, j)] + [] == [Shut(no, j)];
    Signed(Shut(no, j), []);
    ReportedJoin(true, t, [Shut(no, j)], n);
    ReportedJoin(false, t, [Shut(no, j)], n);
    ReportedJoin(true, t, [Shut(no, j)], no);
    ReportedJoin(false, t, [Shut(no, j)], no);
  }

  /** A way has signs only of groups that the tree holds. */
  lemma {:induction false} SignsOf(re: Re, s: Text, i: nat, j: nat, t: Way, n: nat)
    requires i <= j <= |s| && Goes(re, s, i, j, t) && Signs(t, n)
    ensures n in Numbers(re)
    decreases j - i, re, 0
  {
    match re
    case Group(no, alts) =>
      var inner := t[1..|t| - 1];
      assert t == [Open(no, i)] + inner + [Shut(no, j)];
      Around(no, i, j, inner, n);
      if n != no {
        SignsOfA(alts, s, i, j, inner, n);
      }
    case Star(x) =>
      SignsOfAgain(x, s, i, j, t, n);
    case Plus(x) =>
      var m, t1, t2 := PlusTwo(x, s, i, j, t);
      SignsJoin(t1, t2, n);
      if Signs(t1, n) {
        SignsOf(x, s, i, m, t1, n);
      } else {
        SignsOfAgain(x, s, m, j, t2, n);
      }
    case Opt(x) =>
      assert t == [t[0]] + t[1..];
      Silence(t[0], t[1..], n);
      if t != [Pick(1)] {
        SignsOf(x, s, i, j, t[1..], n);
      }
    case _ =>
  }

  lemma {:induction false} SignsOfAgain(x: Re, s: Text, i: nat, j: nat, t: Way, n: nat)
    requires i <= j <= |s| && GoesAgain(x, s, i, j, t) && Signs(t, n)
    ensures n in Numbers(x)
    decreases j - i, x, 1
  {
    hide Goes;
    hide GoesAgain;
    NoSigns(n);
    var m, t1, t2 := AgainTwo(x, s, i, j, t);
    Silence(Pick(0), t1 + t2, n);
    SignsJoin(t1, t2, n);
    if Signs(t1, n) {
      SignsOf(x, s, i, m, t1, n);
    } else {
      SignsOfAgain(x, s, m, j, t2, n);
    }
  }

  lemma {:induction false} SignsOfB(b: Branch, s: Text, i: nat, j: nat, t: Way, n: nat)
    requires i <= j <= |s| && GoesB(b, s, i, j, t) && Signs(t, n)
    ensures n in NumbersB(b)
    decreases j - i, b, 0
  {
    hide Goes;
    if b.Cons? {
      var m, t1, t2 := BranchTwo(b, s, i, j, t);
      SignsJoin(t1, t2, n);
      if Signs(t1, n) {
        SignsOf(b.head, s, i, m, t1, n);
      } else {
        SignsOfB(b.tail, s, m, j, t2, n);
      }
    }
  }

  lemma {:induction false} SignsOfA(a: Alts, s: Text, i: nat, j: nat, t: Way, n: nat)
    requires i <= j <= |s| && GoesA(a, s, i, j, t) && Signs(t, n)
    ensures n in NumbersA(a)
    decreases j - i, a, 0
  {
    hide GoesB;
    assert t == [t[0]] + t[1..];
    Silence(t[0], t[1..], n);
    if t[0] == Pick(0) {
      SignsOfB(a.first, s, i, j, t[1..], n);
    } else {
      SignsOfA(a.rest, s, i, j, t[1..], n);
    }
  }

  /** What a way reports for a group is a pass through it: its opening and its shutting, with a match between. */
  lemma {:induction false} LastPass(re: Re, s: Text, i: nat, j: nat, t: Way, n: nat) returns (g: Alts)
    requires i <= j <= |s| && Apart(re) && Goes(re, s, i, j, t) && Signs(t, n)
    ensures Holds(re, n, g) && Passes(s, i, j, t, n, g)
    decreases j - i, re, 0
  {
    g := ANil;
    match re
    case Group(no, alts) =>
      g := GroupPass(no, alts, s, i, j, t, n);
    case Star(x) =>
      g := LastPassAgain(x, s, i, j, t, n);
    case Plus(x) =>
      var m, t1, t2 := PlusTwo(x, s, i, j, t);
      SignsJoin(t1, t2, n);
      if Signs(t2, n) {
        g := LastPassAgain(x, s, m, j, t2, n);
      } else {
        g := LastPass(x, s, i, m, t1, n);
      }
      PassesJoin(s, i, m, j, t1, t2, n, g);
    case Opt(x) =>
      assert t == [t[0]] + t[1..];
      Silence(t[0], t[1..], n);
      if t != [Pick(1)] {
        g := LastPass(x, s, i, j, t[1..], n);
      }
    case _ =>
  }

  lemma {:induction false} GroupPass(no: nat, alts: Alts, s: Text, i: nat, j: nat, t: Way, n: nat) returns (g: Alts)
    requires i <= j <= |s| && Apart(Group(no, alts)) && Goes(Group(no, alts), s, i, j, t) && Signs(t, n)
    ensures Holds(Group(no, alts), n, g) && Passes(s, i, j, t, n, g)
    decreases j - i, alts, 1
  {
    hide GoesA;
    hide MatchesA;
    var inner := t[1..|t| - 1];
    assert t == [Open(no, i)] + inner + [Shut(no, j)];
    Around(no, i, j, inner, n);
    if n == no {
      g := alts;
      if Signs(inner, n) {
        SignsOfA(alts, s, i, j, inner, n);
      }
      WayMatchesA(alts, s, i, j, inner);
    } else {
      g := LastPassA(alts, s, i, j, inner, n);
    }
  }

  lemma {:induction false} LastPassAgain(x: Re, s: Text, i: nat, j: nat, t: Way, n: nat) returns (g: Alts)
    requires i <= j <= |s| && Apart(x) && GoesAgain(x, s, i, j, t) && Signs(t, n)
    ensures Holds(x, n, g) && Passes(s, i, j, t, n, g)
    decreases j - i, x, 1
  {
    hide Goes;
    hide GoesAgain;
    NoSigns(n);
    var m, t1, t2 := AgainTwo(x, s, i, j, t);
    Silence(Pick(0), t1 + t2, n);
    SignsJoin(t1, t2, n);
    if Signs(t2, n) {
      g := LastPassAgain(x, s, m, j, t2, n);
    } else {
      g := LastPass(x, s, i, m, t1, n);
    }
    PassesJoin(s, i, m, j, t1, t2, n, g);
  }

  lemma {:induction false} LastPassB(b: Branch, s: Text, i: nat, j: nat, t: Way, n: nat) returns (g: Alts)
    requires i <= j <= |s| && ApartB(b) && GoesB(b, s, i, j, t) && Signs(t, n)
    ensures HoldsB(b, n, g) && Passes(s, i, j, t, n, g)
    decreases j - i, b, 0
  {
    hide Goes;
    g := ANil;
    if b.Cons? {
      var m, t1, t2 := BranchTwo(b, s, i, j, t);
      SignsJoin(t1, t2, n);
      if Signs(t2, n) {
        g := LastPassB(b.tail, s, m, j, t2, n);
      } else {
        g := LastPass(b.head, s, i, m, t1, n);
      }
      PassesJoin(s, i, m, j, t1, t2, n, g);
    }
  }

  lemma {:induction false} LastPassA(a: Alts, s: Text, i: nat, j: nat, t: Way, n: nat) returns (g: Alts)
    requires i <= j <= |s| && ApartA(a) && GoesA(a, s, i, j, t) && Signs(t, n)
    ensures HoldsA(a, n, g) && Passes(s, i, j, t, n, g)
    decreases j - i, a, 0
  {
    hide GoesB;
    assert t == [t[0]] + t[1..];
    Silence(t[0], t[1..], n);
    if t[0] == Pick(0) {
      g := LastPassB(a.first, s, i, j, t[1..], n);
    } else {
      g := LastPassA(a.rest, s, i, j, t[1..], n);
    }
  }

  // ----- the groups of a pattern -----

  lemma {:induction false} AtomNumbers(re: Re, pat: Text, i: nat, j: nat, n: nat, m: nat)
    requires i <= j <= |pat| && AtomAt(re, pat, i, j, n, m)
    ensures n <= m && Apart(re) && forall k :: k in Numbers(re) <==> n <= k < m
    decreases re, 0
  {
    if re.Group? {
      AltsNumbers(re.alts, pat, i + 1, j - 1, n + 1, m);
    }
  }

  lemma {:induction false} PieceNumbers(re: Re, pat: Text, i: nat, j: nat, n: nat, m: nat)
    requires i <= j <= |pat| && PieceAt(re, pat, i, j, n, m)
    ensures n <= m && Apart(re) && forall k :: k in Numbers(re) <==> n <= k < m
    decreases re, 1
  {
    hide AtomAt;
    match re
    case Star(x) => AtomNumbers(x, pat, i, j - 1, n, m);
    case Plus(x) => AtomNumbers(x, pat, i, j - 1, n, m);
    case Opt(x) => AtomNumbers(x, pat, i, j - 1, n, m);
    case _ => AtomNumbers(re, pat, i, j, n, m);
  }

  lemma {:induction false} PiecesNumbers(b: Branch, pat: Text, i: nat, j: nat, n: nat, m: nat)
    requires i <= j <= |pat| && PiecesAt(b, pat, i, j, n, m)
    ensures n <= m && ApartB(b) && forall k :: k in NumbersB(b) <==> n <= k < m
    decreases b, 0
  {
    hide PieceAt;
    if b.Cons? {
      var c: nat, k: nat :| i <= c <= j && PieceAt(b.head, pat, i, c, n, k) && PiecesAt(b.tail, pat, c, j, k, m);
      PieceNumbers(b.head, pat, i, c, n, k);
      PiecesNumbers(b.tail, pat, c, j, k, m);
    }
  }

  lemma {:induction false} BranchNumbers(b: Branch, pat: Text, i: nat, j: nat, n: nat, m: nat)
    requires i <= j <= |pat| && BranchAt(b, pat, i, j, n, m)
    ensures n <= m && ApartB(b) && forall k :: k in NumbersB(b) <==> n <= k < m
    decreases b, 1
  {
    if i < j {
      PiecesNumbers(b, pat, i, j, n, m);
    }
  }

  /** The groups between two places have all the numbers from the first up to the last, and none holds its own. */
  lemma {:induction false} AltsNumbers(a: Alts, pat: Text, i: nat, j: nat, n: nat, m: nat)
    requires i <= j <= |pat| && AltsAt(a, pat, i, j, n, m)
    ensures n <= m && ApartA(a) && forall k :: k in NumbersA(a) <==> n <= k < m
    decreases a
  {
    hide BranchAt;
    if a.rest.ANil? {
      BranchNumbers(a.first, pat, i, j, n, m);
    } else {
      var c: nat, k: nat :| i <= c < j && pat[c] == BAR && BranchAt(a.first, pat, i, c, n, k) &&
                            AltsAt(a.rest, pat, c + 1, j, k, m);
      BranchNumbers(a.first, pat, i, c, n, k);
      AltsNumbers(a.rest, pat, c + 1, j, k, m);
    }
  }

  /** Groups of a spelled pattern do not hold their own number. */
  lemma SpelledApart(a: Alts, pat: Text)
    requires Spells(a, pat)
    ensures ApartA(a)
  {
    hide AltsAt;
    var m: nat :| AltsAt(a, pat, 0, |pat|, 1, m);
    AltsNumbers(a, pat, 0, |pat|, 1, m);
  }

  /**
   Both ends of a group are captured or neither is, and what is captured is a
   match of that group inside the whole.
   */
  lemma {:induction false} Captured(a: Alts, pat: Text, s: Text, i: nat, n: nat) returns (g: Alts)
    requires a.ACons? && WfA(a) && Spells(a, pat) && i <= |s| && Find(a, s, i).Hit?
    ensures var r := Find(a, s, i);
            && (n in r.starts <==> n in r.ends)
            && (n in r.starts ==>
                  && HoldsA(a, n, g)
                  && i <= r.starts[n] <= r.ends[n] <= r.end <= |s|
                  && MatchesA(AsCoded, g, s, r.starts[n], r.ends[n]))
  {
    hide GoesA;
    hide MatchesA;
    hide Find;
    hide Precedes;
    SpelledApart(a, pat);
    var t := FindFirst(a, s, i);
    g := ANil;
    if Signs(t, n) {
      g := LastPassA(a, s, i, Find(a, s, i).end, t, n);
    }
  }
}
