/**
 Two reference meanings of a pattern. Matches says declaratively which spans of
 a subject a tree matches. Run is the ordered, backtracking meaning: it takes
 the alternatives in priority order and finds the end and the subexpressions of
 the first way to match. The two are proved to agree on every subject.
 */
module RegexMeaning {
  import opened RegexSyntax

  /** The needle occurs in s at or after i (strstr). */
  ghost predicate Occurs(needle: Text, s: Text, i: nat) {
    exists k: nat :: OccursAt(needle, s, k) && i <= k
  }

  predicate OccursAt(needle: Text, s: Text, k: nat) {
    k + |needle| <= |s| && s[k..k + |needle|] == needle
  }

  /**
   The literal step as the machine takes it: the first character is compared,
   and the whole text must occur somewhere from here on.
   */
  ghost predicate LitStep(t: Text, s: Text, i: nat) {
    0 < |t| && i < |s| && s[i] == t[0] && Occurs(t, s, i)
  }

  /** A node that matches one character matches the one at i. */
  predicate OneStep(re: Re, s: Text, i: nat) {
    i < |s| &&
    match re
    case Any => true
    case AnyOf(cs) => s[i] in cs
    case AnyBut(cs) => s[i] !in cs
    case Lit(t) => |t| == 1 && s[i] == t[0]
    case _ => false
  }

  lemma LitStepFits(t: Text, s: Text, i: nat)
    requires LitStep(t, s, i)
    ensures i + |t| <= |s|
  {
  }

  lemma LitStepOne(t: Text, s: Text, i: nat)
    requires |t| == 1
    ensures LitStep(t, s, i) <==> OneStep(Lit(t), s, i)
  {
    if i < |s| && s[i] == t[0] {
      assert OccursAt(t, s, i);
    }
  }

  // ----- the declarative meaning -----

  /** How a literal matches: as the machine does it, or as its text says. */
  datatype Rule = AsCoded | Ordinary

  ghost predicate LitMatch(rule: Rule, t: Text, s: Text, i: nat) {
    match rule
    case AsCoded => LitStep(t, s, i)
    case Ordinary => 0 < |t| && OccursAt(t, s, i)
  }

  /** A literal of one character is matched alike under both rules. */
  lemma LitMatchOne(t: Text, s: Text, i: nat)
    requires |t| == 1
    ensures LitMatch(AsCoded, t, s, i) <==> LitMatch(Ordinary, t, s, i)
  {
    LitStepOne(t, s, i);
    if i < |s| {
      assert s[i..i + 1] == [s[i]];
    }
  }

  /** Tree re matches s from i to j. */
  ghost predicate Matches(rule: Rule, re: Re, s: Text, i: nat, j: nat)
    requires i <= j <= |s|
    decreases j - i, re, 0
  {
    match re
    case Nothing => i == j
    case Bol => i == j == 0
    case Eol => i == j == |s|
    case Lit(t) => j == i + |t| && LitMatch(rule, t, s, i)
    case Group(_, alts) => MatchesA(rule, alts, s, i, j)
    case Star(x) => Many(rule, x, s, i, j)
    case Plus(x) => exists m: nat :: i <= m <= j && Matches(rule, x, s, i, m) && Many(rule, x, s, m, j)
    case Opt(x) => i == j || Matches(rule, x, s, i, j)
    case _ => j == i + 1 && OneStep(re, s, i)
  }

  /** Zero or more times x. */
  ghost predicate Many(rule: Rule, x: Re, s: Text, i: nat, j: nat)
    requires i <= j <= |s|
    decreases j - i, x, 1
  {
    i == j || exists m: nat :: i < m <= j && Matches(rule, x, s, i, m) && Many(rule, x, s, m, j)
  }

  ghost predicate MatchesB(rule: Rule, b: Branch, s: Text, i: nat, j: nat)
    requires i <= j <= |s|
    decreases j - i, b, 0
  {
    match b
    case Nil => i == j
    case Cons(p, t) => exists m: nat :: i <= m <= j && Matches(rule, p, s, i, m) && MatchesB(rule, t, s, m, j)
  }

  ghost predicate MatchesA(rule: Rule, a: Alts, s: Text, i: nat, j: nat)
    requires i <= j <= |s|
    decreases j - i, a, 0
  {
    match a
    case ANil => false
    case ACons(b, t) => MatchesB(rule, b, s, i, j) || MatchesA(rule, t, s, i, j)
  }

  // ----- the ordered meaning -----

  /** One thing still to be matched. */
  datatype Item =
    | Do(re: Re)
    | Choice(alts: Alts)
    | Close(no: nat)
    | Skip                // the empty node behind a repetition
    | Hop                 // the jump back to the head of a loop
    | PlusLoop(x: Re)     // after one x: either again or on

  /** Everything still to be matched, next first. */
  datatype Stack = Done | Push(top: Item, rest: Stack)

  function Prepend(b: Branch, k: Stack): Stack {
    match b
    case Nil => k
    case Cons(p, t) => Push(Do(p), Prepend(t, k))
  }

  predicate ItemWf(it: Item) {
    match it
    case Do(re) => Wf(re)
    case Choice(a) => a.ACons? && WfA(a)
    case PlusLoop(x) => Wf(Plus(x))
    case Close(n) => 0 < n < NSUBEXP
    case _ => true
  }

  predicate StackWf(st: Stack) {
    match st
    case Done => true
    case Push(it, k) => ItemWf(it) && StackWf(k)
  }

  lemma PrependWf(b: Branch, k: Stack)
    requires WfB(b) && StackWf(k)
    ensures StackWf(Prepend(b, k))
  {
  }

  // The number of steps that can be taken before a character is consumed. It is
  // what falls in every step that consumes nothing: an operand of Star and Plus
  // has width, so whatever waits behind it does not count.

  function Cost(re: Re): (n: nat)
    ensures n > 0
  {
    match re
    case Group(_, alts) => 3 + CostA(alts)
    case Star(x) => 3 + Cost(x)
    case Plus(x) => 1 + Cost(x)
    case Opt(x) => 3 + Cost(x)
    case _ => 1
  }

  function CostB(b: Branch): nat {
    match b
    case Nil => 0
    case Cons(p, t) => Cost(p) + if HasWidth(p) then 0 else CostB(t)
  }

  function CostA(a: Alts): nat {
    match a
    case ANil => 1
    case ACons(b, t) => 1 + CostB(b) + CostA(t)
  }

  function ItemCost(it: Item): (n: nat)
    ensures n > 0
  {
    match it
    case Do(re) => Cost(re)
    case Choice(a) => 1 + CostA(a)
    case PlusLoop(x) => 4 + Cost(x)
    case _ => 1
  }

  predicate ItemWidth(it: Item) {
    match it
    case Do(re) => HasWidth(re)
    case Choice(a) => HasWidthA(a)
    case _ => false
  }

  function StackCost(st: Stack): nat {
    match st
    case Done => 0
    case Push(it, k) => ItemCost(it) + if ItemWidth(it) then 0 else StackCost(k)
  }

  lemma PushCost(it1: Item, it2: Item, k: Stack)
    ensures StackCost(Push(it1, Push(it2, k))) ==
            ItemCost(it1) + if ItemWidth(it1) then 0 else ItemCost(it2) + if ItemWidth(it2) then 0 else StackCost(k)
  {
    assert StackCost(Push(it2, k)) == ItemCost(it2) + if ItemWidth(it2) then 0 else StackCost(k);
  }

  lemma PrependCost(b: Branch, k: Stack)
    ensures StackCost(Prepend(b, k)) == CostB(b) + if HasWidthB(b) then 0 else StackCost(k)
  {
  }

  /** The end of a match and where subexpressions started and ended in it. */
  datatype Outcome = Miss | Hit(end: nat, starts: map<nat, nat>, ends: map<nat, nat>)

  /** A later pass through the same parentheses has precedence. */
  function MarkStart(no: nat, i: nat, r: Outcome): Outcome {
    if r.Hit? && no !in r.starts then r.(starts := r.starts[no := i]) else r
  }

  function MarkEnd(no: nat, i: nat, r: Outcome): Outcome {
    if r.Hit? && no !in r.ends then r.(ends := r.ends[no := i]) else r
  }

  ghost function Run(st: Stack, s: Text, i: nat): (r: Outcome)
    requires StackWf(st) && i <= |s|
    ensures r.Hit? ==> i <= r.end <= |s|
    decreases |s| - i, StackCost(st), 1
  {
    match st
    case Done => Hit(i, map[], map[])
    case Push(it, k) =>
      match it
      case Do(re) => RunDo(re, k, s, i)
      case Choice(a) =>
        PrependWf(a.first, k);
        PrependCost(a.first, k);
        var first := Run(Prepend(a.first, k), s, i);
        if first.Hit? || a.rest.ANil? then first else Run(Push(Choice(a.rest), k), s, i)
      case PlusLoop(x) =>
        PushCost(Hop, Do(Plus(x)), k);
        var again := Run(Push(Hop, Push(Do(Plus(x)), k)), s, i);
        if again.Hit? then again else Run(Push(Skip, k), s, i)
      case Close(n) => MarkEnd(n, i, Run(k, s, i))
      case _ => Run(k, s, i)
  }

  ghost function RunDo(re: Re, k: Stack, s: Text, i: nat): (r: Outcome)
    requires Wf(re) && StackWf(k) && i <= |s|
    ensures r.Hit? ==> i <= r.end <= |s|
    decreases |s| - i, StackCost(Push(Do(re), k)), 0
  {
    match re
    case Nothing => Run(k, s, i)
    case Bol => if i == 0 then Run(k, s, i) else Miss
    case Eol => if i == |s| then Run(k, s, i) else Miss
    case Lit(t) =>
      if LitStep(t, s, i) then LitStepFits(t, s, i); Run(k, s, i + |t|) else Miss
    case Group(n, alts) =>
      PushCost(Choice(alts), Close(n), k);
      MarkStart(n, i, Run(Push(Choice(alts), Push(Close(n), k)), s, i))
    case Star(x) =>
      var more := Run(Push(Do(x), Push(Hop, Push(Do(re), k))), s, i);
      if more.Hit? then more else Run(Push(Skip, k), s, i)
    case Plus(x) => Run(Push(Do(x), Push(PlusLoop(x), k)), s, i)
    case Opt(x) =>
      PushCost(Do(x), Skip, k);
      var once := Run(Push(Do(x), Push(Skip, k)), s, i);
      if once.Hit? then once else Run(Push(Skip, k), s, i)
    case _ => if OneStep(re, s, i) then Run(k, s, i + 1) else Miss
  }

  // ----- the two meanings agree -----

  ghost predicate ItemMatches(rule: Rule, it: Item, s: Text, i: nat, j: nat)
    requires i <= j <= |s|
  {
    match it
    case Do(re) => Matches(rule, re, s, i, j)
    case Choice(a) => MatchesA(rule, a, s, i, j)
    case PlusLoop(x) => Many(rule, x, s, i, j)
    case _ => i == j
  }

  ghost predicate Sat(rule: Rule, st: Stack, s: Text, i: nat, j: nat)
    requires i <= j <= |s|
    decreases st
  {
    match st
    case Done => i == j
    case Push(it, k) => exists m: nat :: i <= m <= j && ItemMatches(rule, it, s, i, m) && Sat(rule, k, s, m, j)
  }

  lemma SatPush(rule: Rule, it: Item, k: Stack, s: Text, i: nat, m: nat, j: nat)
    requires i <= m <= j <= |s|
    requires ItemMatches(rule, it, s, i, m) && Sat(rule, k, s, m, j)
    ensures Sat(rule, Push(it, k), s, i, j)
  {
  }

  lemma SatPop(rule: Rule, it: Item, k: Stack, s: Text, i: nat, j: nat) returns (m: nat)
    requires i <= j <= |s|
    requires Sat(rule, Push(it, k), s, i, j)
    ensures i <= m <= j && ItemMatches(rule, it, s, i, m) && Sat(rule, k, s, m, j)
  {
    m :| i <= m <= j && ItemMatches(rule, it, s, i, m) && Sat(rule, k, s, m, j);
  }

  lemma {:induction false} SatPrepend(rule: Rule, b: Branch, k: Stack, s: Text, i: nat, j: nat)
    requires i <= j <= |s|
    requires Sat(rule, Prepend(b, k), s, i, j)
    ensures exists m: nat :: i <= m <= j && MatchesB(rule, b, s, i, m) && Sat(rule, k, s, m, j)
    decreases b
  {
    match b
    case Nil =>
      assert MatchesB(rule, b, s, i, i);
    case Cons(p, t) =>
      var l := SatPop(rule, Do(p), Prepend(t, k), s, i, j);
      SatPrepend(rule, t, k, s, l, j);
      var m: nat :| l <= m <= j && MatchesB(rule, t, s, l, m) && Sat(rule, k, s, m, j);
      assert MatchesB(rule, b, s, i, m);
  }

  lemma {:induction false} PrependSat(rule: Rule, b: Branch, k: Stack, s: Text, i: nat, m: nat, j: nat)
    requires i <= m <= j <= |s|
    requires MatchesB(rule, b, s, i, m) && Sat(rule, k, s, m, j)
    ensures Sat(rule, Prepend(b, k), s, i, j)
    decreases b
  {
    match b
    case Nil =>
    case Cons(p, t) =>
      var l: nat :| i <= l <= m && Matches(rule, p, s, i, l) && MatchesB(rule, t, s, l, m);
      PrependSat(rule, t, k, s, l, m, j);
      SatPush(rule, Do(p), Prepend(t, k), s, i, l, j);
  }

  // What one unfolding of a compound tree satisfies, the tree satisfies.

  lemma GroupSat(n: nat, alts: Alts, k: Stack, s: Text, i: nat, j: nat)
    requires i <= j <= |s|
    requires Sat(AsCoded, Push(Choice(alts), Push(Close(n), k)), s, i, j)
    ensures Sat(AsCoded, Push(Do(Group(n, alts)), k), s, i, j)
  {
    var m := SatPop(AsCoded, Choice(alts), Push(Close(n), k), s, i, j);
    var _ := SatPop(AsCoded, Close(n), k, s, m, j);
    SatPush(AsCoded, Do(Group(n, alts)), k, s, i, m, j);
  }

  lemma StarSat(x: Re, k: Stack, s: Text, i: nat, j: nat)
    requires i <= j <= |s|
    requires Sat(AsCoded, Push(Do(x), Push(Hop, Push(Do(Star(x)), k))), s, i, j)
    ensures Sat(AsCoded, Push(Do(Star(x)), k), s, i, j)
  {
    var loop := Push(Do(Star(x)), k);
    var l := SatPop(AsCoded, Do(x), Push(Hop, loop), s, i, j);
    var _ := SatPop(AsCoded, Hop, loop, s, l, j);
    var m := SatPop(AsCoded, Do(Star(x)), k, s, l, j);
    assert Many(AsCoded, x, s, i, m);
    SatPush(AsCoded, Do(Star(x)), k, s, i, m, j);
  }

  lemma PlusSat(x: Re, k: Stack, s: Text, i: nat, j: nat)
    requires i <= j <= |s|
    requires Sat(AsCoded, Push(Do(x), Push(PlusLoop(x), k)), s, i, j)
    ensures Sat(AsCoded, Push(Do(Plus(x)), k), s, i, j)
  {
    var l := SatPop(AsCoded, Do(x), Push(PlusLoop(x), k), s, i, j);
    var m := SatPop(AsCoded, PlusLoop(x), k, s, l, j);
    SatPush(AsCoded, Do(Plus(x)), k, s, i, m, j);
  }

  /** At least once is a special case of zero or more times. */
  lemma PlusIsMany(rule: Rule, x: Re, s: Text, i: nat, j: nat)
    requires i <= j <= |s|
    requires Matches(rule, Plus(x), s, i, j)
    ensures Many(rule, x, s, i, j)
  {
    var m: nat :| i <= m <= j && Matches(rule, x, s, i, m) && Many(rule, x, s, m, j);
  }

  lemma PlusLoopSat(x: Re, k: Stack, s: Text, i: nat, j: nat)
    requires i <= j <= |s|
    requires Sat(AsCoded, Push(Hop, Push(Do(Plus(x)), k)), s, i, j)
    ensures Sat(AsCoded, Push(PlusLoop(x), k), s, i, j)
  {
    var _ := SatPop(AsCoded, Hop, Push(Do(Plus(x)), k), s, i, j);
    var m := SatPop(AsCoded, Do(Plus(x)), k, s, i, j);
    PlusIsMany(AsCoded, x, s, i, m);
    SatPush(AsCoded, PlusLoop(x), k, s, i, m, j);
  }

  lemma OptSat(x: Re, k: Stack, s: Text, i: nat, j: nat)
    requires i <= j <= |s|
    requires Sat(AsCoded, Push(Do(x), Push(Skip, k)), s, i, j)
    ensures Sat(AsCoded, Push(Do(Opt(x)), k), s, i, j)
  {
    var m := SatPop(AsCoded, Do(x), Push(Skip, k), s, i, j);
    var _ := SatPop(AsCoded, Skip, k, s, m, j);
    SatPush(AsCoded, Do(Opt(x)), k, s, i, m, j);
  }

  lemma {:induction false} RunIsSound(st: Stack, s: Text, i: nat)
    requires StackWf(st) && i <= |s| && Run(st, s, i).Hit?
    ensures Sat(AsCoded, st, s, i, Run(st, s, i).end)
    decreases |s| - i, StackCost(st), 1
  {
    if st.Push? {
      var k, j := st.rest, Run(st, s, i).end;
      match st.top
      case Do(re) =>
        RunDoIsSound(re, k, s, i);
      case Choice(a) =>
        PrependWf(a.first, k);
        PrependCost(a.first, k);
        if Run(Prepend(a.first, k), s, i).Hit? {
          RunIsSound(Prepend(a.first, k), s, i);
          SatPrepend(AsCoded, a.first, k, s, i, j);
        } else {
          RunIsSound(Push(Choice(a.rest), k), s, i);
        }
      case PlusLoop(x) =>
        PushCost(Hop, Do(Plus(x)), k);
        var again := Push(Hop, Push(Do(Plus(x)), k));
        if Run(again, s, i).Hit? {
          RunIsSound(again, s, i);
          PlusLoopSat(x, k, s, i, j);
        } else {
          RunIsSound(Push(Skip, k), s, i);
        }
      case _ =>
        RunIsSound(k, s, i);
        SatPush(AsCoded, st.top, k, s, i, i, j);
    }
  }

  lemma {:induction false} RunDoIsSound(re: Re, k: Stack, s: Text, i: nat)
    requires Wf(re) && StackWf(k) && i <= |s| && RunDo(re, k, s, i).Hit?
    ensures Sat(AsCoded, Push(Do(re), k), s, i, RunDo(re, k, s, i).end)
    decreases |s| - i, StackCost(Push(Do(re), k)), 0
  {
    hide Sat;
    var j := RunDo(re, k, s, i).end;
    match re
    case Lit(t) =>
      LitStepFits(t, s, i);
      RunIsSound(k, s, i + |t|);
      SatPush(AsCoded, Do(re), k, s, i, i + |t|, j);
    case Group(n, alts) =>
      PushCost(Choice(alts), Close(n), k);
      RunIsSound(Push(Choice(alts), Push(Close(n), k)), s, i);
      GroupSat(n, alts, k, s, i, j);
    case Star(x) =>
      var loop := Push(Do(re), k);
      var more := Push(Do(x), Push(Hop, loop));
      assert StackWf(loop);
      if Run(more, s, i).Hit? {
        RunIsSound(more, s, i);
        StarSat(x, k, s, i, j);
      } else {
        assert Run(Push(Skip, k), s, i) == Run(k, s, i);
        RunIsSound(k, s, i);
        SatPush(AsCoded, Do(re), k, s, i, i, j);
      }
    case Plus(x) =>
      RunIsSound(Push(Do(x), Push(PlusLoop(x), k)), s, i);
      PlusSat(x, k, s, i, j);
    case Opt(x) =>
      var once := Push(Do(x), Push(Skip, k));
      PushCost(Do(x), Skip, k);
      if Run(once, s, i).Hit? {
        RunIsSound(once, s, i);
        OptSat(x, k, s, i, j);
      } else {
        assert Run(Push(Skip, k), s, i) == Run(k, s, i);
        RunIsSound(k, s, i);
        SatPush(AsCoded, Do(re), k, s, i, i, j);
      }
    case _ => RunLeafIsSound(re, k, s, i);
  }

  lemma {:induction false} RunLeafIsSound(re: Re, k: Stack, s: Text, i: nat)
    requires Wf(re) && StackWf(k) && i <= |s| && RunDo(re, k, s, i).Hit?
    requires !re.Lit? && !re.Group? && !re.Star? && !re.Plus? && !re.Opt?
    ensures Sat(AsCoded, Push(Do(re), k), s, i, RunDo(re, k, s, i).end)
    decreases |s| - i, StackCost(Push(Do(re), k)), 0, 0
  {
    hide Sat;
    var m := if HasWidth(re) then i + 1 else i;
    assert RunDo(re, k, s, i) == Run(k, s, m);
    RunIsSound(k, s, m);
    SatPush(AsCoded, Do(re), k, s, i, m, RunDo(re, k, s, i).end);
  }

  lemma FirstOfMany(rule: Rule, x: Re, s: Text, i: nat, j: nat) returns (l: nat)
    requires i < j <= |s| && Many(rule, x, s, i, j)
    ensures i < l <= j && Matches(rule, x, s, i, l) && Many(rule, x, s, l, j)
  {
    l :| i < l <= j && Matches(rule, x, s, i, l) && Many(rule, x, s, l, j);
  }

  lemma SatStar(x: Re, k: Stack, s: Text, i: nat, m: nat, j: nat)
    requires i < m <= j <= |s| && Many(AsCoded, x, s, i, m) && Sat(AsCoded, k, s, m, j)
    ensures Sat(AsCoded, Push(Do(x), Push(Hop, Push(Do(Star(x)), k))), s, i, j)
  {
    var loop := Push(Do(Star(x)), k);
    var l := FirstOfMany(AsCoded, x, s, i, m);
    SatPush(AsCoded, Do(Star(x)), k, s, l, m, j);
    SatPush(AsCoded, Hop, loop, s, l, l, j);
    SatPush(AsCoded, Do(x), Push(Hop, loop), s, i, l, j);
  }

  lemma SatPlus(x: Re, k: Stack, s: Text, i: nat, m: nat, j: nat)
    requires i <= m <= j <= |s| && Matches(AsCoded, Plus(x), s, i, m) && Sat(AsCoded, k, s, m, j)
    ensures Sat(AsCoded, Push(Do(x), Push(PlusLoop(x), k)), s, i, j)
  {
    var l: nat :| i <= l <= m && Matches(AsCoded, x, s, i, l) && Many(AsCoded, x, s, l, m);
    SatPush(AsCoded, PlusLoop(x), k, s, l, m, j);
    SatPush(AsCoded, Do(x), Push(PlusLoop(x), k), s, i, l, j);
  }

  lemma {:induction false} RunIsComplete(st: Stack, s: Text, i: nat, j: nat)
    requires StackWf(st) && i <= j <= |s| && Sat(AsCoded, st, s, i, j)
    ensures Run(st, s, i).Hit?
    decreases |s| - i, StackCost(st), 1
  {
    hide Sat;
    if st.Push? {
      var it, k := st.top, st.rest;
      var m := SatPop(AsCoded, it, k, s, i, j);
      match it
      case Do(re) =>
        RunDoIsComplete(re, k, s, i, m, j);
      case Choice(a) =>
        if MatchesB(AsCoded, a.first, s, i, m) {
          PrependWf(a.first, k);
          PrependCost(a.first, k);
          PrependSat(AsCoded, a.first, k, s, i, m, j);
          RunIsComplete(Prepend(a.first, k), s, i, j);
        } else {
          SatPush(AsCoded, Choice(a.rest), k, s, i, m, j);
          RunIsComplete(Push(Choice(a.rest), k), s, i, j);
        }
      case PlusLoop(x) =>
        if i == m {
          SatPush(AsCoded, Skip, k, s, i, i, j);
          RunIsComplete(Push(Skip, k), s, i, j);
        } else {
          var l := FirstOfMany(AsCoded, x, s, i, m);
          PushCost(Hop, Do(Plus(x)), k);
          SatPush(AsCoded, Do(Plus(x)), k, s, i, m, j);
          SatPush(AsCoded, Hop, Push(Do(Plus(x)), k), s, i, i, j);
          RunIsComplete(Push(Hop, Push(Do(Plus(x)), k)), s, i, j);
        }
      case _ =>
        RunIsComplete(k, s, i, j);
    }
  }

  lemma {:induction false} RunDoIsComplete(re: Re, k: Stack, s: Text, i: nat, m: nat, j: nat)
    requires Wf(re) && StackWf(k) && i <= m <= j <= |s|
    requires Matches(AsCoded, re, s, i, m) && Sat(AsCoded, k, s, m, j)
    ensures RunDo(re, k, s, i).Hit?
    decreases |s| - i, StackCost(Push(Do(re), k)), 0
  {
    hide Sat;
    match re
    case Group(n, alts) =>
      SatPush(AsCoded, Close(n), k, s, m, m, j);
      SatPush(AsCoded, Choice(alts), Push(Close(n), k), s, i, m, j);
      PushCost(Choice(alts), Close(n), k);
      RunIsComplete(Push(Choice(alts), Push(Close(n), k)), s, i, j);
    case Star(x) =>
      if i == m {
        SatPush(AsCoded, Skip, k, s, i, i, j);
        RunIsComplete(Push(Skip, k), s, i, j);
      } else {
        SatStar(x, k, s, i, m, j);
        assert StackWf(Push(Do(re), k));
        RunIsComplete(Push(Do(x), Push(Hop, Push(Do(re), k))), s, i, j);
      }
    case Plus(x) =>
      SatPlus(x, k, s, i, m, j);
      RunIsComplete(Push(Do(x), Push(PlusLoop(x), k)), s, i, j);
    case Opt(x) =>
      if i == m {
        SatPush(AsCoded, Skip, k, s, i, i, j);
        RunIsComplete(Push(Skip, k), s, i, j);
      } else {
        SatPush(AsCoded, Skip, k, s, m, m, j);
        SatPush(AsCoded, Do(x), Push(Skip, k), s, i, m, j);
        PushCost(Do(x), Skip, k);
        RunIsComplete(Push(Do(x), Push(Skip, k)), s, i, j);
      }
    case _ =>
      RunIsComplete(k, s, m, j);
  }

  /** A choice matches from i to somewhere. */
  ghost predicate MatchesFrom(rule: Rule, a: Alts, s: Text, i: nat)
    requires i <= |s|
  {
    exists j: nat :: i <= j <= |s| && MatchesA(rule, a, s, i, j)
  }

  /** The ordered meaning of a choice on its own, from i. */
  ghost function Find(a: Alts, s: Text, i: nat): (r: Outcome)
    requires a.ACons? && WfA(a) && i <= |s|
    ensures r.Hit? ==> i <= r.end <= |s|
  {
    Run(Push(Choice(a), Done), s, i)
  }

  /**
   The ordered meaning finds a match exactly when the declarative one has a
   match from there, and what it finds is such a match.
   */
  lemma MeaningsAgree(a: Alts, s: Text, i: nat)
    requires a.ACons? && WfA(a) && i <= |s|
    ensures Find(a, s, i).Hit? <==> MatchesFrom(AsCoded, a, s, i)
    ensures Find(a, s, i).Hit? ==> MatchesA(AsCoded, a, s, i, Find(a, s, i).end)
  {
    var st := Push(Choice(a), Done);
    if Run(st, s, i).Hit? {
      RunIsSound(st, s, i);
      var m := SatPop(AsCoded, Choice(a), Done, s, i, Run(st, s, i).end);
    }
    if MatchesFrom(AsCoded, a, s, i) {
      var j: nat :| i <= j <= |s| && MatchesA(AsCoded, a, s, i, j);
      SatPush(AsCoded, Choice(a), Done, s, i, j, j);
      RunIsComplete(st, s, i, j);
    }
  }

  // ----- literals as coded and literals as written -----

  /**
   The machine's literal step is the ordinary one, on every subject and at
   every position, exactly for literals of one character.
   */
  lemma LiteralIsOrdinaryIffSingle(t: Text)
    requires |t| > 0
    ensures (forall s: Text, i: nat :: LitMatch(AsCoded, t, s, i) <==> LitMatch(Ordinary, t, s, i)) <==> |t| == 1
  {
    if |t| == 1 {
      forall s: Text, i: nat ensures LitMatch(AsCoded, t, s, i) <==> LitMatch(Ordinary, t, s, i) {
        LitMatchOne(t, s, i);
      }
    } else {
      var other: Ch := if t[1] == 1 then 2 else 1;
      var s := [t[0], other] + t;
      assert OccursAt(t, s, 2);
      assert s[0..|t|][1] == other;
      assert LitMatch(AsCoded, t, s, 0) && !LitMatch(Ordinary, t, s, 0);
    }
  }

  /** Every literal of the tree is a single character. */
  predicate SingleLits(re: Re) {
    match re
    case Lit(t) => |t| == 1
    case Group(_, alts) => SingleLitsA(alts)
    case Star(x) => SingleLits(x)
    case Plus(x) => SingleLits(x)
    case Opt(x) => SingleLits(x)
    case _ => true
  }

  predicate SingleLitsB(b: Branch) {
    match b
    case Nil => true
    case Cons(p, t) => SingleLits(p) && SingleLitsB(t)
  }

  predicate SingleLitsA(a: Alts) {
    match a
    case ANil => true
    case ACons(b, t) => SingleLitsB(b) && SingleLitsA(t)
  }

  /** The text is stretched at i: its first character stands there, and the text itself only further on. */
  ghost predicate Stretched(t: Text, s: Text, i: nat) {
    0 < |t| && i < |s| && s[i] == t[0] && !OccursAt(t, s, i) && Occurs(t, s, i)
  }

  /** No literal of the tree is stretched anywhere in the subject. */
  ghost predicate Fair(re: Re, s: Text) {
    match re
    case Lit(t) => forall i: nat :: !Stretched(t, s, i)
    case Group(_, alts) => FairA(alts, s)
    case Star(x) => Fair(x, s)
    case Plus(x) => Fair(x, s)
    case Opt(x) => Fair(x, s)
    case _ => true
  }

  ghost predicate FairB(b: Branch, s: Text) {
    match b
    case Nil => true
    case Cons(p, t) => Fair(p, s) && FairB(t, s)
  }

  ghost predicate FairA(a: Alts, s: Text) {
    match a
    case ANil => true
    case ACons(b, t) => FairB(b, s) && FairA(t, s)
  }

  /** Single characters are never stretched. */
  lemma {:induction false} SingleFair(re: Re, s: Text)
    requires SingleLits(re)
    ensures Fair(re, s)
  {
    match re
    case Lit(t) =>
      forall i: nat ensures !Stretched(t, s, i) {
        LitMatchOne(t, s, i);
      }
    case Group(_, alts) => SingleFairA(alts, s);
    case Star(x) => SingleFair(x, s);
    case Plus(x) => SingleFair(x, s);
    case Opt(x) => SingleFair(x, s);
    case _ =>
  }

  lemma {:induction false} SingleFairB(b: Branch, s: Text)
    requires SingleLitsB(b)
    ensures FairB(b, s)
  {
    if b.Cons? {
      SingleFair(b.head, s);
      SingleFairB(b.tail, s);
    }
  }

  lemma {:induction false} SingleFairA(a: Alts, s: Text)
    requires SingleLitsA(a)
    ensures FairA(a, s)
  {
    if a.ACons? {
      SingleFairB(a.first, s);
      SingleFairA(a.rest, s);
    }
  }

  /** At one place the literal steps differ exactly if the text is stretched there. */
  lemma LiteralStretched(t: Text, s: Text, i: nat)
    ensures LitMatch(AsCoded, t, s, i) <==> LitMatch(Ordinary, t, s, i) || Stretched(t, s, i)
  {
    if 0 < |t| && OccursAt(t, s, i) {
      assert s[i..i + |t|][0] == s[i];
    }
  }

  /** What matches as written matches under either rule, and so does whatever matches if no literal is stretched. */
  lemma {:induction false} Carry(from: Rule, to: Rule, re: Re, s: Text, i: nat, j: nat)
    requires i <= j <= |s| && (from == Ordinary || Fair(re, s)) && Matches(from, re, s, i, j)
    ensures Matches(to, re, s, i, j)
    decreases j - i, re, 0
  {
    match re
    case Lit(t) =>
      LiteralStretched(t, s, i);
    case Group(_, alts) =>
      CarryA(from, to, alts, s, i, j);
    case Star(x) =>
      CarryMany(from, to, x, s, i, j);
    case Plus(x) =>
      var m: nat :| i <= m <= j && Matches(from, x, s, i, m) && Many(from, x, s, m, j);
      Carry(from, to, x, s, i, m);
      CarryMany(from, to, x, s, m, j);
    case Opt(x) =>
      if i < j {
        Carry(from, to, x, s, i, j);
      }
    case _ =>
  }

  lemma {:induction false} CarryMany(from: Rule, to: Rule, x: Re, s: Text, i: nat, j: nat)
    requires i <= j <= |s| && (from == Ordinary || Fair(x, s)) && Many(from, x, s, i, j)
    ensures Many(to, x, s, i, j)
    decreases j - i, x, 1
  {
    if i < j {
      var m: nat :| i < m <= j && Matches(from, x, s, i, m) && Many(from, x, s, m, j);
      Carry(from, to, x, s, i, m);
      CarryMany(from, to, x, s, m, j);
    }
  }

  lemma {:induction false} CarryB(from: Rule, to: Rule, b: Branch, s: Text, i: nat, j: nat)
    requires i <= j <= |s| && (from == Ordinary || FairB(b, s)) && MatchesB(from, b, s, i, j)
    ensures MatchesB(to, b, s, i, j)
    decreases j - i, b, 0
  {
    if b.Cons? {
      var m: nat :| i <= m <= j && Matches(from, b.head, s, i, m) && MatchesB(from, b.tail, s, m, j);
      Carry(from, to, b.head, s, i, m);
      CarryB(from, to, b.tail, s, m, j);
    }
  }

  lemma {:induction false} CarryA(from: Rule, to: Rule, a: Alts, s: Text, i: nat, j: nat)
    requires i <= j <= |s| && (from == Ordinary || FairA(a, s)) && MatchesA(from, a, s, i, j)
    ensures MatchesA(to, a, s, i, j)
    decreases j - i, a, 0
  {
    if MatchesB(from, a.first, s, i, j) {
      CarryB(from, to, a.first, s, i, j);
    } else {
      CarryA(from, to, a.rest, s, i, j);
    }
  }
}
