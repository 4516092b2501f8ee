/**
 How trees are written: a relation, by recursion on the tree, that says which
 stretch of a pattern stands for which tree, and the proof that the parser
 accepts a pattern exactly if it stands for a tree, and then with that tree.
 */
module RegexSpelling {
  import opened RegexSyntax

  // ----- bracketed classes -----

  /** A part of a class: a member, or a hyphen and the upper end of a range that begins with the part before. */
  datatype Entry = One(c: Ch) | Through(hi: Ch)

  function Written(ps: seq<Entry>): Text {
    if ps == [] then []
    else
      match ps[0]
      case One(c) => [c] + Written(ps[1..])
      case Through(hi) => [HYPHEN, hi] + Written(ps[1..])
  }

  /**
   Parts that may follow the character prev: no closing bracket, a hyphen as a
   member only at the end, and no range that goes down.
   */
  predicate PartsOk(prev: Ch, ps: seq<Entry>)
    decreases |ps|
  {
    ps == [] ||
    match ps[0]
    case One(c) => c != RBRACKET && (c == HYPHEN ==> |ps| == 1) && PartsOk(c, ps[1..])
    case Through(hi) => hi != RBRACKET && prev <= hi && PartsOk(hi, ps[1..])
  }

  /** The members in the order in which the compiler lists them. */
  function Members(prev: Ch, ps: seq<Entry>): Text
    requires PartsOk(prev, ps)
    decreases |ps|
  {
    if ps == [] then []
    else
      match ps[0]
      case One(c) => [c] + Members(c, ps[1..])
      case Through(hi) => After(prev, hi) + Members(hi, ps[1..])
  }

  /** The character in front of part k. */
  function Front(prev: Ch, ps: seq<Entry>, k: nat): Ch
    requires k < |ps|
  {
    if k == 0 then prev else if ps[k - 1].One? then ps[k - 1].c else ps[k - 1].hi
  }

  /** Character c is part k, or lies between the ends of the range that part k closes. */
  predicate Lists(prev: Ch, ps: seq<Entry>, k: nat, c: Ch)
    requires k < |ps|
  {
    match ps[k]
    case One(d) => c == d
    case Through(hi) => Front(prev, ps, k) <= c <= hi
  }

  ghost predicate Listed(prev: Ch, ps: seq<Entry>, c: Ch) {
    exists k :: 0 <= k < |ps| && Lists(prev, ps, k, c)
  }

  lemma ListedStep(prev: Ch, ps: seq<Entry>, c: Ch)
    requires ps != []
    ensures Listed(prev, ps, c) <==>
            Lists(prev, ps, 0, c) || Listed(if ps[0].One? then ps[0].c else ps[0].hi, ps[1..], c)
  {
    var next := if ps[0].One? then ps[0].c else ps[0].hi;
    assert forall k :: 0 <= k < |ps| - 1 ==> (Lists(next, ps[1..], k, c) <==> Lists(prev, ps, k + 1, c));
    if k :| 0 < k < |ps| && Lists(prev, ps, k, c) {
      assert Lists(next, ps[1..], k - 1, c);
    }
  }

  lemma AfterHas(lo: Ch, hi: Ch, c: Ch)
    requires lo <= hi
    ensures c in After(lo, hi) <==> lo < c <= hi
  {
    if lo < c <= hi {
      assert After(lo, hi)[c - lo - 1] == c;
    }
  }

  /** A class holds the characters it lists and those between the ends of its ranges, and no others. */
  lemma {:induction false} ClassHolds(prev: Ch, ps: seq<Entry>, c: Ch)
    requires PartsOk(prev, ps)
    ensures c in [prev] + Members(prev, ps) <==> c == prev || Listed(prev, ps, c)
    decreases |ps|
  {
    if ps != [] {
      ListedStep(prev, ps, c);
      match ps[0]
      case One(d) =>
        ClassHolds(d, ps[1..], c);
      case Through(hi) =>
        ClassHolds(hi, ps[1..], c);
        AfterHas(prev, hi, c);
        AfterHas(prev, hi, hi);
    }
  }

  /** The entries ps, written from pos up to the closing bracket in front of j, list the members cs. */
  ghost predicate EntriesAt(ps: seq<Entry>, cs: Text, pat: Text, pos: nat, j: nat) {
    && 0 < pos < j <= |pat| && PartsOk(pat[pos - 1], ps)
    && cs == Members(pat[pos - 1], ps) && pat[pos..j] == Written(ps) + [RBRACKET]
  }

  /** Members cs written from i up to the closing bracket in front of j. A first character stands for itself. */
  ghost predicate ClassAt(cs: Text, pat: Text, i: nat, j: nat)
    requires i <= j <= |pat|
  {
    i < j && cs != [] && cs[0] == pat[i] &&
    var k, more := i + 1, cs[1..];
    exists ps :: EntriesAt(ps, more, pat, k, j)
  }

  // ----- trees -----

  /** Ordinary characters from i to j are all of a run, or all but its last character if that one is repeated. */
  predicate RunEnds(pat: Text, i: nat, j: nat)
    requires i < j <= |pat|
  {
    if j == |pat| || IsMeta(pat[j]) then j == i + 1 || !IsRepn(Peek(pat, j)) else IsRepn(Peek(pat, j + 1))
  }

  predicate LiteralAt(t: Text, pat: Text, i: nat, j: nat)
    requires i <= j <= |pat|
  {
    if i < j && pat[i] == BACKSLASH then j == i + 2 && t == [pat[i + 1]]
    else i < j && t == pat[i..j] && (forall k :: i <= k < j ==> !IsMeta(pat[k])) && RunEnds(pat, i, j)
  }

  /** Atom re written from i to j; its groups take the numbers from n up to m. */
  ghost predicate AtomAt(re: Re, pat: Text, i: nat, j: nat, n: nat, m: nat)
    requires i <= j <= |pat|
    decreases re, 0
  {
    match re
    case Bol => j == i + 1 && pat[i] == CARET && n == m
    case Eol => j == i + 1 && pat[i] == DOLLAR && n == m
    case Any => j == i + 1 && pat[i] == DOT && n == m
    case AnyOf(cs) => i + 1 < j && pat[i] == LBRACKET && pat[i + 1] != CARET && ClassAt(cs, pat, i + 1, j) && n == m
    case AnyBut(cs) => i + 2 < j && pat[i] == LBRACKET && pat[i + 1] == CARET && ClassAt(cs, pat, i + 2, j) && n == m
    case Lit(t) => LiteralAt(t, pat, i, j) && n == m
    case Group(no, alts) =>
      no == n < NSUBEXP && i + 2 <= j && pat[i] == LPAREN && pat[j - 1] == RPAREN &&
      AltsAt(alts, pat, i + 1, j - 1, n + 1, m)
    case _ => false
  }

  /** A repetition character, if any, follows its operand, and no other one follows it. */
  ghost predicate PieceAt(re: Re, pat: Text, i: nat, j: nat, n: nat, m: nat)
    requires i <= j <= |pat|
    decreases re, 1
  {
    !IsRepn(Peek(pat, j)) &&
    match re
    case Star(x) => i < j && pat[j - 1] == ASTERISK && HasWidth(x) && AtomAt(x, pat, i, j - 1, n, m)
    case Plus(x) => i < j && pat[j - 1] == PLUS_SIGN && HasWidth(x) && AtomAt(x, pat, i, j - 1, n, m)
    case Opt(x) => i < j && pat[j - 1] == QUESTION && AtomAt(x, pat, i, j - 1, n, m)
    case _ => AtomAt(re, pat, i, j, n, m)
  }

  /** Pieces written one after the other. */
  ghost predicate PiecesAt(b: Branch, pat: Text, i: nat, j: nat, n: nat, m: nat)
    requires i <= j <= |pat|
    decreases b, 0
  {
    match b
    case Nil => i == j && n == m
    case Cons(p, t) =>
      exists c: nat, k: nat :: i <= c <= j && PieceAt(p, pat, i, c, n, k) && PiecesAt(t, pat, c, j, k, m)
  }

  /** An alternative: its pieces, or nothing at all. */
  ghost predicate BranchAt(b: Branch, pat: Text, i: nat, j: nat, n: nat, m: nat)
    requires i <= j <= |pat|
    decreases b, 1
  {
    if i == j then b == Cons(Nothing, Nil) && n == m else b.Cons? && PiecesAt(b, pat, i, j, n, m)
  }

  /** Alternatives written with a bar between them. */
  ghost predicate AltsAt(a: Alts, pat: Text, i: nat, j: nat, n: nat, m: nat)
    requires i <= j <= |pat|
    decreases a
  {
    match a
    case ANil => false
    case ACons(b, rest) =>
      if rest.ANil? then BranchAt(b, pat, i, j, n, m)
      else
        exists c: nat, k: nat :: i <= c < j && pat[c] == BAR && BranchAt(b, pat, i, c, n, k) &&
                                 AltsAt(rest, pat, c + 1, j, k, m)
  }

  /** The whole pattern stands for the tree; groups are numbered from 1 in the order of their parentheses. */
  ghost predicate Spells(a: Alts, pat: Text) {
    exists m: nat :: AltsAt(a, pat, 0, |pat|, 1, m)
  }

  // ----- what the parser accepts is spelled -----

  lemma NoEntry(pat: Text, pos: nat)
    requires 0 < pos < |pat| && pat[pos] == RBRACKET
    ensures EntriesAt([], [], pat, pos, pos + 1)
  {
    assert pat[pos..pos + 1] == Written([]) + [RBRACKET];
  }

  lemma OneMore(ps: seq<Entry>, cs: Text, pat: Text, pos: nat, j: nat)
    requires 0 < pos && EntriesAt(ps, cs, pat, pos + 1, j) && pat[pos] != RBRACKET && (pat[pos] == HYPHEN ==> ps == [])
    ensures EntriesAt([One(pat[pos])] + ps, [pat[pos]] + cs, pat, pos, j)
  {
    var c, qs := pat[pos], [One(pat[pos])] + ps;
    assert qs[1..] == ps;
    assert Written(qs) == [c] + Written(ps);
    assert pat[pos..j] == [c] + pat[pos + 1..j];
  }

  lemma RangeMore(ps: seq<Entry>, cs: Text, pat: Text, pos: nat, j: nat)
    requires 0 < pos && EntriesAt(ps, cs, pat, pos + 2, j)
    requires pat[pos] == HYPHEN && pat[pos + 1] != RBRACKET && pat[pos - 1] <= pat[pos + 1]
    ensures EntriesAt([Through(pat[pos + 1])] + ps, After(pat[pos - 1], pat[pos + 1]) + cs, pat, pos, j)
  {
    var hi, qs := pat[pos + 1], [Through(pat[pos + 1])] + ps;
    assert qs[1..] == ps;
    assert Written(qs) == [HYPHEN, hi] + Written(ps);
    assert pat[pos..j] == [HYPHEN, hi] + pat[pos + 2..j];
  }

  lemma EndsAtBracket(ps: seq<Entry>, cs: Text, pat: Text, pos: nat, j: nat)
    requires EntriesAt(ps, cs, pat, pos, j)
    ensures pat[pos] == RBRACKET <==> ps == []
    ensures ps == [] ==> j == pos + 1
  {
    assert pat[pos] == pat[pos..j][0];
  }

  lemma {:induction false} ClassSpelled(pat: Text, pos: nat, npar: nat, acc: Text) returns (ps: seq<Entry>, cs: Text)
    requires 0 < pos <= |pat| && ParseClass(pat, pos, npar, acc).Ok?
    ensures var r := ParseClass(pat, pos, npar, acc); r.v == acc + cs && EntriesAt(ps, cs, pat, pos, r.pos)
    decreases |pat| - pos
  {
    hide EntriesAt;
    hide After;
    var c := Peek(pat, pos);
    var r := ParseClass(pat, pos, npar, acc);
    if c == RBRACKET {
      ps, cs := [], [];
      NoEntry(pat, pos);
    } else {
      var hi := Peek(pat, pos + 1);
      if c != HYPHEN || hi == RBRACKET || hi == NUL {
        ps, cs := ClassSpelled(pat, pos + 1, npar, acc + [c]);
        if c == HYPHEN {
          EndsAtBracket(ps, cs, pat, pos + 1, r.pos);
        }
        OneMore(ps, cs, pat, pos, r.pos);
        ps, cs := [One(c)] + ps, [c] + cs;
      } else {
        var more := After(pat[pos - 1], hi);
        ps, cs := ClassSpelled(pat, pos + 2, npar, acc + more);
        RangeMore(ps, cs, pat, pos, r.pos);
        ps, cs := [Through(hi)] + ps, more + cs;
      }
    }
  }

  lemma BracketSpelled(pat: Text, pos: nat, npar: nat)
    requires 0 < pos <= |pat| && ParseBracket(pat, pos, npar).Ok?
    ensures var r := ParseBracket(pat, pos, npar); ClassAt(r.v, pat, pos, r.pos)
  {
    var c := Peek(pat, pos);
    var r := ParseBracket(pat, pos, npar);
    assert c != NUL;
    assert [] + [c] == [c];
    assert r == ParseClass(pat, pos + 1, npar, [c]);
    var ps, cs := ClassSpelled(pat, pos + 1, npar, [c]);
    assert r.v[1..] == cs;
  }

  lemma LiteralSpelled(pat: Text, pos: nat, npar: nat)
    requires pos < |pat| && 0 < npar && (pat[pos] == BACKSLASH || !IsMeta(pat[pos])) && ParseAtom(pat, pos, npar).Ok?
    ensures var r := ParseAtom(pat, pos, npar); AtomAt(r.v, pat, pos, r.pos, npar, r.npar)
  {
    LiteralAtom(pat, pos, npar);
  }

  lemma {:induction false} AtomSpelled(pat: Text, pos: nat, npar: nat)
    requires pos <= |pat| && 0 < npar && ParseAtom(pat, pos, npar).Ok?
    ensures var r := ParseAtom(pat, pos, npar); AtomAt(r.v, pat, pos, r.pos, npar, r.npar)
    decreases |pat| - pos, 0
  {
    hide ParseBracket;
    hide OrdinaryRun;
    hide ParseAlts;
    hide AltsAt;
    hide ClassAt;
    var c := Peek(pat, pos);
    if c == LBRACKET {
      BracketSpelled(pat, if Peek(pat, pos + 1) == CARET then pos + 2 else pos + 1, npar);
    } else if c == LPAREN {
      assert ParseAtom(pat, pos, npar) == ParseGroup(pat, pos + 1, npar);
      AltsSpelled(pat, pos + 1, pos + 1, npar + 1, npar + 1, ANil);
    } else if c == BACKSLASH || !IsMeta(c) {
      LiteralSpelled(pat, pos, npar);
    }
  }

  lemma {:induction false} PieceSpelled(pat: Text, pos: nat, npar: nat)
    requires pos <= |pat| && 0 < npar && ParsePiece(pat, pos, npar).Ok?
    ensures var r := ParsePiece(pat, pos, npar); PieceAt(r.v, pat, pos, r.pos, npar, r.npar)
    decreases |pat| - pos, 1
  {
    hide ParseAtom;
    hide AtomAt;
    AtomSpelled(pat, pos, npar);
  }

  lemma {:induction false} SnocAt(b: Branch, p: Re, pat: Text, i: nat, c: nat, j: nat, n: nat, k: nat, m: nat)
    requires i <= c <= j <= |pat| && PiecesAt(b, pat, i, c, n, k) && PieceAt(p, pat, c, j, k, m)
    ensures PiecesAt(Snoc(b, p), pat, i, j, n, m)
    decreases b
  {
    hide PieceAt;
    match b
    case Nil =>
      assert PiecesAt(Nil, pat, j, j, m, m);
    case Cons(q, t) =>
      var d: nat, l: nat :| i <= d <= c && PieceAt(q, pat, i, d, n, l) && PiecesAt(t, pat, d, c, l, k);
      SnocAt(t, p, pat, d, c, j, l, k, m);
  }

  /** The pieces acc stand in front of pos. */
  lemma {:induction false} BranchSpelled(pat: Text, i: nat, pos: nat, n: nat, npar: nat, acc: Branch)
    requires i <= pos <= |pat| && 0 < npar && WfB(acc) && PiecesAt(acc, pat, i, pos, n, npar)
    requires acc.Nil? <==> i == pos
    requires ParseBranch(pat, pos, npar, acc).Ok?
    ensures var r := ParseBranch(pat, pos, npar, acc); BranchAt(r.v, pat, i, r.pos, n, r.npar)
    decreases |pat| - pos, 2
  {
    hide ParsePiece;
    hide PieceAt;
    if !IsStop(Peek(pat, pos)) {
      PieceSpelled(pat, pos, npar);
      var p := ParsePiece(pat, pos, npar);
      SnocWf(acc, p.v);
      SnocAt(acc, p.v, pat, i, pos, p.pos, n, npar, p.npar);
      BranchSpelled(pat, i, p.pos, n, p.npar, Snoc(acc, p.v));
    }
  }

  lemma {:induction false} SnocAAt(a: Alts, b: Branch, pat: Text, i: nat, c: nat, j: nat, n: nat, k: nat, m: nat)
    requires i <= c < j <= |pat| && AltsAt(a, pat, i, c, n, k) && pat[c] == BAR && BranchAt(b, pat, c + 1, j, k, m)
    ensures AltsAt(SnocA(a, b), pat, i, j, n, m)
    decreases a
  {
    hide BranchAt;
    var last := ACons(b, ANil);
    assert AltsAt(last, pat, c + 1, j, k, m);
    if a.rest.ANil? {
      assert SnocA(a, b) == ACons(a.first, last);
    } else {
      var d: nat, l: nat :| i <= d < c && pat[d] == BAR && BranchAt(a.first, pat, i, d, n, l) &&
                            AltsAt(a.rest, pat, d + 1, c, l, k);
      SnocAAt(a.rest, b, pat, d + 1, c, j, l, k, m);
    }
  }

  /** The alternatives acc, each with a bar behind it, stand in front of pos. */
  lemma {:induction false} AltsSpelled(pat: Text, i: nat, pos: nat, n: nat, npar: nat, acc: Alts)
    requires i <= pos <= |pat| && 0 < npar && WfA(acc)
    requires if acc.ANil? then i == pos && n == npar
             else i < pos && pat[pos - 1] == BAR && AltsAt(acc, pat, i, pos - 1, n, npar)
    requires ParseAlts(pat, pos, npar, acc).Ok?
    ensures var r := ParseAlts(pat, pos, npar, acc); AltsAt(r.v, pat, i, r.pos, n, r.npar)
    decreases |pat| - pos, 3
  {
    hide ParseBranch;
    hide BranchAt;
    assert PiecesAt(Nil, pat, pos, pos, npar, npar);
    BranchSpelled(pat, pos, pos, npar, npar, Nil);
    var b := ParseBranch(pat, pos, npar, Nil);
    SnocAWf(acc, b.v);
    if acc.ANil? {
      assert AltsAt(ACons(b.v, ANil), pat, i, b.pos, n, b.npar);
    } else {
      SnocAAt(acc, b.v, pat, i, pos - 1, b.pos, n, npar, b.npar);
    }
    if Peek(pat, b.pos) == BAR {
      AltsSpelled(pat, i, b.pos + 1, n, b.npar, SnocA(acc, b.v));
    }
  }

  // ----- what is spelled is accepted -----

  lemma FirstEntry(ps: seq<Entry>, cs: Text, pat: Text, pos: nat, j: nat) returns (next: nat, add: Text, more: Text)
    requires EntriesAt(ps, cs, pat, pos, j) && ps != []
    ensures pos < next && cs == add + more && EntriesAt(ps[1..], more, pat, next, j)
    ensures match ps[0]
            case One(c) => c == pat[pos] && next == pos + 1 && add == [c] && (c == HYPHEN ==> pat[pos + 1] == RBRACKET)
            case Through(hi) =>
              && next == pos + 2 && pat[pos] == HYPHEN && pat[pos + 1] == hi != RBRACKET && pat[pos - 1] <= hi
              && add == After(pat[pos - 1], hi)
  {
    var w, rest := pat[pos..j], Written(ps[1..]) + [RBRACKET];
    match ps[0]
    case One(c) =>
      assert w == [c] + rest;
      assert pat[pos] == w[0];
      next, add, more := pos + 1, [c], Members(c, ps[1..]);
      assert pat[next..j] == w[1..] == rest;
      if c == HYPHEN {
        assert pat[next] == rest[0];
      }
    case Through(hi) =>
      assert w == [HYPHEN, hi] + rest;
      assert pat[pos] == w[0] && pat[pos + 1] == w[1];
      next, add, more := pos + 2, After(pat[pos - 1], hi), Members(hi, ps[1..]);
      assert pat[next..j] == w[2..] == rest;
  }

  lemma {:induction false} ClassParses(ps: seq<Entry>, cs: Text, pat: Text, pos: nat, j: nat, npar: nat, acc: Text)
    requires EntriesAt(ps, cs, pat, pos, j)
    ensures 0 < pos <= |pat| && ParseClass(pat, pos, npar, acc) == Ok(acc + cs, j, npar)
    decreases |ps|
  {
    EndsAtBracket(ps, cs, pat, pos, j);
    if ps == [] {
      assert acc + [] == acc;
    } else {
      EntryParses(ps, cs, pat, pos, j, npar, acc);
    }
  }

  lemma {:induction false} EntryParses(ps: seq<Entry>, cs: Text, pat: Text, pos: nat, j: nat, npar: nat, acc: Text)
    requires EntriesAt(ps, cs, pat, pos, j) && ps != [] && pat[pos] != RBRACKET
    ensures ParseClass(pat, pos, npar, acc) == Ok(acc + cs, j, npar)
    decreases |ps|, 0
  {
    hide PartsOk;
    hide Written;
    hide After;
    var next, add, more := FirstEntry(ps, cs, pat, pos, j);
    ClassParses(ps[1..], more, pat, next, j, npar, acc + add);
    assert acc + add + more == acc + cs;
  }

  lemma BracketParses(cs: Text, pat: Text, i: nat, j: nat, npar: nat)
    requires 0 < i <= j <= |pat| && ClassAt(cs, pat, i, j)
    ensures ParseBracket(pat, i, npar) == Ok(cs, j, npar)
  {
    hide EntriesAt;
    var ps :| EntriesAt(ps, cs[1..], pat, i + 1, j);
    ClassParses(ps, cs[1..], pat, i + 1, j, npar, [pat[i]]);
    assert [] + [pat[i]] == [pat[i]] && [pat[i]] + cs[1..] == cs;
  }

  lemma LiteralParses(t: Text, pat: Text, i: nat, j: nat, n: nat)
    requires i <= j <= |pat| && 0 < n && LiteralAt(t, pat, i, j)
    ensures ParseAtom(pat, i, n) == Ok(Lit(t), j, n)
  {
    LiteralAtom(pat, i, n);
  }

  lemma {:induction false} AtomParses(re: Re, pat: Text, i: nat, j: nat, n: nat, m: nat)
    requires i <= j <= |pat| && 0 < n && AtomAt(re, pat, i, j, n, m)
    ensures ParseAtom(pat, i, n) == Ok(re, j, m)
    decreases re, 0
  {
    hide ParseBracket;
    hide OrdinaryRun;
    hide ParseAlts;
    hide AltsAt;
    hide ClassAt;
    hide LiteralAt;
    match re
    case AnyOf(cs) =>
      BracketParses(cs, pat, i + 1, j, n);
    case AnyBut(cs) =>
      BracketParses(cs, pat, i + 2, j, n);
    case Lit(t) =>
      LiteralParses(t, pat, i, j, n);
    case Group(_, alts) =>
      AltsParse(alts, pat, i + 1, j - 1, n + 1, m, ANil);
    case _ =>
  }

  lemma {:induction false} PieceParses(re: Re, pat: Text, i: nat, j: nat, n: nat, m: nat)
    requires i <= j <= |pat| && 0 < n && PieceAt(re, pat, i, j, n, m)
    ensures ParsePiece(pat, i, n) == Ok(re, j, m) && !IsStop(Peek(pat, i))
    decreases re, 1
  {
    hide AtomAt;
    hide OrdinaryRun;
    match re
    case Star(x) => AtomParses(x, pat, i, j - 1, n, m);
    case Plus(x) => AtomParses(x, pat, i, j - 1, n, m);
    case Opt(x) => AtomParses(x, pat, i, j - 1, n, m);
    case _ => AtomParses(re, pat, i, j, n, m);
  }

  function Append(b: Branch, t: Branch): Branch {
    match b
    case Nil => t
    case Cons(p, u) => Cons(p, Append(u, t))
  }

  lemma AppendSnoc(b: Branch, p: Re, t: Branch)
    ensures Append(Snoc(b, p), t) == Append(b, Cons(p, t))
    ensures Append(b, Nil) == b
  {
  }

  lemma {:induction false} PiecesParse(b: Branch, pat: Text, i: nat, j: nat, n: nat, m: nat, acc: Branch)
    requires i <= j <= |pat| && 0 < n && PiecesAt(b, pat, i, j, n, m) && IsStop(Peek(pat, j)) && WfB(acc)
    requires acc.Cons? || b.Cons?
    ensures ParseBranch(pat, i, n, acc) == Ok(Append(acc, b), j, m)
    decreases b, 0
  {
    hide PieceAt;
    hide ParsePiece;
    match b
    case Nil =>
      AppendSnoc(acc, Nothing, Nil);
    case Cons(p, t) =>
      var c: nat, k: nat :| i <= c <= j && PieceAt(p, pat, i, c, n, k) && PiecesAt(t, pat, c, j, k, m);
      PieceParses(p, pat, i, c, n, k);
      SnocWf(acc, p);
      PiecesParse(t, pat, c, j, k, m, Snoc(acc, p));
      AppendSnoc(acc, p, t);
  }

  lemma {:induction false} BranchParses(b: Branch, pat: Text, i: nat, j: nat, n: nat, m: nat)
    requires i <= j <= |pat| && 0 < n && BranchAt(b, pat, i, j, n, m) && IsStop(Peek(pat, j))
    ensures ParseBranch(pat, i, n, Nil) == Ok(b, j, m)
    decreases b, 1
  {
    if i < j {
      PiecesParse(b, pat, i, j, n, m, Nil);
    }
  }

  lemma {:induction false} AltsParse(a: Alts, pat: Text, i: nat, j: nat, n: nat, m: nat, acc: Alts)
    requires i <= j <= |pat| && 0 < n && AltsAt(a, pat, i, j, n, m) && WfA(acc)
    requires Peek(pat, j) == NUL || Peek(pat, j) == RPAREN
    ensures ParseAlts(pat, i, n, acc) == Ok(AppendA(acc, a), j, m)
    decreases a
  {
    hide BranchAt;
    hide ParseBranch;
    var b := a.first;
    AppendSnocA(acc, b, a.rest);
    if a.rest.ANil? {
      BranchParses(b, pat, i, j, n, m);
      AppendSnocA(SnocA(acc, b), b, ANil);
      SnocAWf(acc, b);
    } else {
      var c: nat, k: nat :| i <= c < j && pat[c] == BAR && BranchAt(b, pat, i, c, n, k) &&
                            AltsAt(a.rest, pat, c + 1, j, k, m);
      BranchParses(b, pat, i, c, n, k);
      SnocAWf(acc, b);
      AltsParse(a.rest, pat, c + 1, j, k, m, SnocA(acc, b));
    }
  }

  /** The parser accepts a pattern with a tree exactly if the pattern spells that tree. */
  lemma {:induction false} ParseSpells(pat: Text, a: Alts)
    ensures Spells(a, pat) <==> Parse(pat).Ok? && Parse(pat).v == a
  {
    hide AltsAt;
    hide ParseAlts;
    if Spells(a, pat) {
      var m: nat :| AltsAt(a, pat, 0, |pat|, 1, m);
      AltsParse(a, pat, 0, |pat|, 1, m, ANil);
    }
    if Parse(pat).Ok? {
      AltsSpelled(pat, 0, 0, 1, 1, ANil);
    }
  }
}
