/**
 The links of a whole program. The layout of a pattern tells where its nodes
 start and where each of them leads; every emitted program has exactly these
 links, so that its nodes lead to nodes, forward except at the end of a loop.
 */
module RegexShape {
  import opened RegexSyntax
  import opened RegexCode
  import opened RegexLinks

  /**
   What stands at a place, with all places counted from the start of the
   program. next: where the node leads; end: the node behind its choice; head:
   the first node of the loop; low: the first node of the loop from which the
   links lead to its end.
   */
  datatype Role =
    | NoNode
    | Plain(next: int)
    | Branching(next: int, end: int)
    | Looping(head: int, low: int)

  /** A fragment that starts at place at and leads on to out. */
  function RoleOf(re: Re, at: int, q: int, out: int): Role {
    match re
    case Group(_, alts) =>
      var z := at + 3 + SizeA(alts);
      if q == at then Plain(at + 3) else if q == z then Plain(out) else RoleOfA(alts, at + 3, q, z)
    case Star(x) =>
      if Simple(x) then if q == at then Plain(out) else NoNode
      else
        var z := at + 3 + Size(x);
        if q == at then Branching(z + 3, z + 6)
        else if q == z then Looping(at, at + 3)
        else if q == z + 3 then Branching(z + 6, z + 6)
        else if q == z + 6 then Plain(out)
        else RoleOf(x, at + 3, q, z)
    case Plus(x) =>
      if Simple(x) then if q == at then Plain(out) else NoNode
      else
        var z := at + Size(x);
        if q == z then Branching(z + 6, z + 9)
        else if q == z + 3 then Looping(at, z + 3)
        else if q == z + 6 then Branching(z + 9, z + 9)
        else if q == z + 9 then Plain(out)
        else RoleOf(x, at, q, z)
    case Opt(x) =>
      var z := at + 3 + Size(x);
      if q == at then Branching(z, z + 3)
      else if q == z then Branching(z + 3, z + 3)
      else if q == z + 3 then Plain(out)
      else RoleOf(x, at + 3, q, z + 3)
    case _ => if q == at then Plain(out) else NoNode
  }

  function RoleOfB(b: Branch, at: int, q: int, out: int): Role {
    match b
    case Nil => NoNode
    case Cons(p, t) =>
      var z := at + Size(p);
      if q < z then RoleOf(p, at, q, if t.Nil? then out else z) else RoleOfB(t, z, q, out)
  }

  function RoleOfA(a: Alts, at: int, q: int, end: int): Role {
    match a
    case ANil => NoNode
    case ACons(b, t) =>
      var z := at + 3 + SizeB(b);
      if q == at then Branching(z, end) else if q < z then RoleOfB(b, at + 3, q, end) else RoleOfA(t, z, q, end)
  }

  // ----- the layout by itself -----

  lemma {:induction false} Inside(re: Re, at: int, q: int, out: int)
    ensures RoleOf(re, at, q, out) != NoNode ==> at <= q && q + 3 <= at + Size(re)
    decreases re
  {
    match re
    case Group(_, alts) => InsideA(alts, at + 3, q, at + 3 + SizeA(alts));
    case Star(x) => Inside(x, at + 3, q, at + 3 + Size(x));
    case Plus(x) => Inside(x, at, q, at + Size(x));
    case Opt(x) => Inside(x, at + 3, q, at + 6 + Size(x));
    case _ =>
  }

  lemma {:induction false} InsideB(b: Branch, at: int, q: int, out: int)
    ensures RoleOfB(b, at, q, out) != NoNode ==> at <= q && q + 3 <= at + SizeB(b)
    decreases b
  {
    if b.Cons? {
      Inside(b.head, at, q, if b.tail.Nil? then out else at + Size(b.head));
      InsideB(b.tail, at + Size(b.head), q, out);
    }
  }

  lemma {:induction false} InsideA(a: Alts, at: int, q: int, end: int)
    ensures RoleOfA(a, at, q, end) != NoNode ==> at <= q && q + 3 <= at + SizeA(a)
    decreases a
  {
    if a.ACons? {
      InsideB(a.first, at + 3, q, end);
      InsideA(a.rest, at + 3 + SizeB(a.first), q, end);
    }
  }

  /** A fragment starts with a node. */
  lemma {:induction false} Begins(re: Re, at: int, out: int)
    ensures RoleOf(re, at, at, out) != NoNode
    decreases re
  {
    match re
    case Plus(x) => Begins(x, at, at + Size(x));
    case _ =>
  }

  /**
   What the layout says about the node at q: it leads forward to a node or to
   out; a choice has an operand, leads through its own branches and ends at a
   node that is no branch; a loop ends behind its head. The other roles are
   those at the places that the first one names.
   */
  predicate Sound(r: Role, q: int, out: int, operand: Role, next: Role, end: Role) {
    match r
    case NoNode => true
    case Plain(n) => q < n && (n == out || next != NoNode)
    case Branching(n, e) =>
      && q < n <= e && operand != NoNode
      && (if e == out then end == NoNode else end.Plain?)
      && (n == e || (next.Branching? && next.end == e))
    case Looping(h, low) => h < q && h + 3 <= low <= q && next != NoNode && end != NoNode
  }

  function NextPlace(r: Role): int {
    match r
    case NoNode => 0
    case Plain(n) => n
    case Branching(n, _) => n
    case Looping(h, _) => h
  }

  function EndPlace(r: Role): int {
    match r
    case Branching(_, e) => e
    case Looping(_, low) => low
    case _ => 0
  }

  ghost predicate SoundIn(re: Re, at: int, q: int, out: int) {
    var r := RoleOf(re, at, q, out);
    Sound(r, q, out, RoleOf(re, at, q + 3, out), RoleOf(re, at, NextPlace(r), out), RoleOf(re, at, EndPlace(r), out))
  }

  ghost predicate SoundInB(b: Branch, at: int, q: int, out: int) {
    var r := RoleOfB(b, at, q, out);
    Sound(r, q, out, RoleOfB(b, at, q + 3, out), RoleOfB(b, at, NextPlace(r), out), RoleOfB(b, at, EndPlace(r), out))
  }

  ghost predicate SoundInA(a: Alts, at: int, q: int, end: int) {
    var r := RoleOfA(a, at, q, end);
    Sound(r, q, end, RoleOfA(a, at, q + 3, end), RoleOfA(a, at, NextPlace(r), end), RoleOfA(a, at, EndPlace(r), end))
  }

  /** The operand inside a compound, with the place that the operand leads on to. */
  function InnerRole(re: Re, at: int, q: int): Role
    requires re.Group? || re.Star? || re.Plus? || re.Opt?
  {
    match re
    case Group(_, alts) => RoleOfA(alts, at + 3, q, at + 3 + SizeA(alts))
    case Star(x) => RoleOf(x, at + 3, q, at + 3 + Size(x))
    case Plus(x) => RoleOf(x, at, q, at + Size(x))
    case Opt(x) => RoleOf(x, at + 3, q, at + 6 + Size(x))
  }

  predicate Compound(re: Re) {
    re.Group? || ((re.Star? || re.Plus?) && !Simple(re.x)) || re.Opt?
  }

  /** Where the operand of a compound leads on to. */
  function InnerOut(re: Re, at: int): int
    requires Compound(re)
  {
    match re
    case Group(_, alts) => at + 3 + SizeA(alts)
    case Star(x) => at + 3 + Size(x)
    case Plus(x) => at + Size(x)
    case Opt(x) => at + 6 + Size(x)
  }

  lemma SameRole(re: Re, at: int, q: int, out: int)
    requires Compound(re) && InnerRole(re, at, q) != NoNode
    ensures RoleOf(re, at, q, out) == InnerRole(re, at, q)
  {
    hide RoleOf;
    hide RoleOfA;
    match re
    case Group(n, alts) => SameRoleGroup(n, alts, at, q, out);
    case Star(x) => SameRoleStar(x, at, q, out);
    case Plus(x) => SameRolePlus(x, at, q, out);
    case Opt(x) => SameRoleOpt(x, at, q, out);
  }

  lemma SameRoleGroup(n: nat, alts: Alts, at: int, q: int, out: int)
    requires InnerRole(Group(n, alts), at, q) != NoNode
    ensures RoleOf(Group(n, alts), at, q, out) == InnerRole(Group(n, alts), at, q)
  {
    hide RoleOfA;
    InsideA(alts, at + 3, q, at + 3 + SizeA(alts));
  }

  lemma SameRoleStar(x: Re, at: int, q: int, out: int)
    requires Compound(Star(x)) && InnerRole(Star(x), at, q) != NoNode
    ensures RoleOf(Star(x), at, q, out) == InnerRole(Star(x), at, q)
  {
    Inside(x, at + 3, q, at + 3 + Size(x));
  }

  lemma SameRolePlus(x: Re, at: int, q: int, out: int)
    requires Compound(Plus(x)) && InnerRole(Plus(x), at, q) != NoNode
    ensures RoleOf(Plus(x), at, q, out) == InnerRole(Plus(x), at, q)
  {
    Inside(x, at, q, at + Size(x));
  }

  lemma SameRoleOpt(x: Re, at: int, q: int, out: int)
    requires InnerRole(Opt(x), at, q) != NoNode
    ensures RoleOf(Opt(x), at, q, out) == InnerRole(Opt(x), at, q)
  {
    Inside(x, at + 3, q, at + 6 + Size(x));
  }

  /** The nodes of a compound that are not in its operand. */
  lemma OwnRoles(re: Re, at: int, out: int)
    requires Compound(re) && Wf(re)
    ensures RoleOf(re, at, InnerOut(re, at), out) != NoNode && InnerOut(re, at) < at + Size(re)
    ensures re.Group? ==> RoleOf(re, at, InnerOut(re, at), out).Plain?
  {
  }

  /** What holds of a node inside the operand holds of it in the compound. */
  lemma Lifted(re: Re, at: int, q: int, out: int)
    requires Compound(re) && Wf(re) && at + Size(re) <= out
    requires var r := InnerRole(re, at, q);
             && r != NoNode && (r.Branching? && !re.Group? ==> r.end != InnerOut(re, at))
             && Sound(r, q, InnerOut(re, at), InnerRole(re, at, q + 3), InnerRole(re, at, NextPlace(r)),
                      InnerRole(re, at, EndPlace(r)))
    ensures SoundIn(re, at, q, out)
  {
    hide RoleOf;
    hide InnerRole;
    hide InnerOut;
    hide Wf;
    var r := InnerRole(re, at, q);
    SameRole(re, at, q, out);
    OwnRoles(re, at, out);
    if InnerRole(re, at, q + 3) != NoNode {
      SameRole(re, at, q + 3, out);
    }
    if InnerRole(re, at, NextPlace(r)) != NoNode {
      SameRole(re, at, NextPlace(r), out);
    }
    if InnerRole(re, at, EndPlace(r)) != NoNode {
      SameRole(re, at, EndPlace(r), out);
      Inside(re, at, EndPlace(r), out);
    }
  }

  /** A sound node stays so where more nodes are known and what is left of it leads on to one of them. */
  lemma Wider(r: Role, q: int, out: int, o: Role, n: Role, e: Role, out': int, o': Role, n': Role, e': Role)
    requires Sound(r, q, out, o, n, e)
    requires (o != NoNode ==> o' == o) && (n != NoNode ==> n' == n) && (e != NoNode ==> e' == e)
    requires out == out' || (NextPlace(r) == out ==> n' != NoNode)
    requires r.Branching? ==> r.end != out && r.end != out'
    ensures Sound(r, q, out', o', n', e')
  {
  }

  /** Every node of a fragment is sound, and its branches end inside it. */
  lemma {:induction false} Leads(re: Re, at: int, q: int, out: int)
    requires Wf(re) && at + Size(re) <= out
    ensures SoundIn(re, at, q, out)
    ensures RoleOf(re, at, q, out).Branching? ==> RoleOf(re, at, q, out).end < at + Size(re)
    decreases re
  {
    hide SoundIn;
    if Compound(re) && InnerRole(re, at, q) != NoNode {
      LeadsInner(re, at, q, out);
    } else {
      LeadsOwn(re, at, q, out);
    }
  }

  lemma {:induction false} LeadsInner(re: Re, at: int, q: int, out: int)
    requires Wf(re) && at + Size(re) <= out && Compound(re) && InnerRole(re, at, q) != NoNode
    ensures SoundIn(re, at, q, out)
    ensures RoleOf(re, at, q, out).Branching? ==> RoleOf(re, at, q, out).end < at + Size(re)
    decreases re, 0
  {
    hide RoleOf;
    hide RoleOfA;
    hide Sound;
    SameRole(re, at, q, out);
    OwnRoles(re, at, out);
    match re {
      case Group(_, alts) => LeadsA(alts, at + 3, q, InnerOut(re, at));
      case Star(x) => Leads(x, at + 3, q, InnerOut(re, at));
      case Plus(x) => Leads(x, at, q, InnerOut(re, at));
      case Opt(x) => Leads(x, at + 3, q, InnerOut(re, at));
    }
    Lifted(re, at, q, out);
  }

  /** The nodes of a fragment that are not in its operand. */
  lemma LeadsOwn(re: Re, at: int, q: int, out: int)
    requires Wf(re) && at + Size(re) <= out && (Compound(re) ==> InnerRole(re, at, q) == NoNode)
    ensures SoundIn(re, at, q, out)
    ensures RoleOf(re, at, q, out).Branching? ==> RoleOf(re, at, q, out).end < at + Size(re)
  {
    hide RoleOfA;
    hide SoundIn;
    if Compound(re) {
      match re
      case Group(_, alts) => LeadsGroup(re, at, q, out);
      case Star(x) => LeadsStar(x, at, q, out);
      case Plus(x) => LeadsPlus(x, at, q, out);
      case Opt(x) => LeadsOpt(x, at, q, out);
    } else {
      LeadsLeaf(re, at, q, out);
    }
  }

  lemma LeadsStar(x: Re, at: int, q: int, out: int)
    requires at + Size(Star(x)) <= out && !Simple(x) && InnerRole(Star(x), at, q) == NoNode
    ensures SoundIn(Star(x), at, q, out)
    ensures RoleOf(Star(x), at, q, out).Branching? ==> RoleOf(Star(x), at, q, out).end < at + Size(Star(x))
  {
    Begins(x, at + 3, at + 3 + Size(x));
    SameRole(Star(x), at, at + 3, out);
  }

  lemma LeadsPlus(x: Re, at: int, q: int, out: int)
    requires at + Size(Plus(x)) <= out && !Simple(x) && InnerRole(Plus(x), at, q) == NoNode
    ensures SoundIn(Plus(x), at, q, out)
    ensures RoleOf(Plus(x), at, q, out).Branching? ==> RoleOf(Plus(x), at, q, out).end < at + Size(Plus(x))
  {
    Begins(x, at, at + Size(x));
    SameRole(Plus(x), at, at, out);
  }

  lemma LeadsOpt(x: Re, at: int, q: int, out: int)
    requires at + Size(Opt(x)) <= out && InnerRole(Opt(x), at, q) == NoNode
    ensures SoundIn(Opt(x), at, q, out)
    ensures RoleOf(Opt(x), at, q, out).Branching? ==> RoleOf(Opt(x), at, q, out).end < at + Size(Opt(x))
  {
    Begins(x, at + 3, at + 6 + Size(x));
    SameRole(Opt(x), at, at + 3, out);
  }

  lemma LeadsLeaf(re: Re, at: int, q: int, out: int)
    requires !Compound(re) && at + Size(re) <= out
    ensures SoundIn(re, at, q, out) && !RoleOf(re, at, q, out).Branching?
  {
  }

  lemma LeadsGroup(re: Re, at: int, q: int, out: int)
    requires Wf(re) && re.Group? && at + Size(re) <= out && InnerRole(re, at, q) == NoNode
    ensures SoundIn(re, at, q, out) && !RoleOf(re, at, q, out).Branching?
  {
    hide RoleOfA;
    hide SizeA;
    hide WfA;
    BeginsA(re, at);
    var inner := at + 3 + SizeA(re.alts);
    assert RoleOf(re, at, q, out) == if q == at then Plain(at + 3) else if q == inner then Plain(out) else NoNode;
    if q == at {
      SameRole(re, at, at + 3, out);
    }
  }

  lemma BeginsA(re: Re, at: int)
    requires Wf(re) && re.Group?
    ensures RoleOfA(re.alts, at + 3, at + 3, at + 3 + SizeA(re.alts)) != NoNode
  {
  }

  lemma HeadRole(b: Branch, at: int, q: int, out: int)
    requires b.Cons?
    ensures var r := RoleOf(b.head, at, q, if b.tail.Nil? then out else at + Size(b.head));
            r != NoNode ==> RoleOfB(b, at, q, out) == r
  {
    Inside(b.head, at, q, if b.tail.Nil? then out else at + Size(b.head));
  }

  lemma TailRole(b: Branch, at: int, q: int, out: int)
    requires b.Cons?
    ensures var r := RoleOfB(b.tail, at + Size(b.head), q, out); r != NoNode ==> RoleOfB(b, at, q, out) == r
  {
    InsideB(b.tail, at + Size(b.head), q, out);
  }

  lemma {:induction false} LeadsB(b: Branch, at: int, q: int, out: int)
    requires WfB(b) && at + SizeB(b) <= out
    ensures SoundInB(b, at, q, out)
    ensures RoleOfB(b, at, q, out).Branching? ==> RoleOfB(b, at, q, out).end < at + SizeB(b)
    decreases b
  {
    if b.Cons? {
      var z := at + Size(b.head);
      if q < z {
        LeadsHead(b, at, q, out);
      } else {
        LeadsB(b.tail, z, q, out);
        var r := RoleOfB(b.tail, z, q, out);
        TailRole(b, at, q + 3, out);
        TailRole(b, at, NextPlace(r), out);
        TailRole(b, at, EndPlace(r), out);
        Wider(r, q, out, RoleOfB(b.tail, z, q + 3, out), RoleOfB(b.tail, z, NextPlace(r), out),
              RoleOfB(b.tail, z, EndPlace(r), out),
              out, RoleOfB(b, at, q + 3, out), RoleOfB(b, at, NextPlace(r), out), RoleOfB(b, at, EndPlace(r), out));
      }
    }
  }

  lemma {:induction false} LeadsHead(b: Branch, at: int, q: int, out: int)
    requires WfB(b) && b.Cons? && at + SizeB(b) <= out && q < at + Size(b.head)
    ensures SoundInB(b, at, q, out)
    ensures RoleOfB(b, at, q, out).Branching? ==> RoleOfB(b, at, q, out).end < at + SizeB(b)
    decreases b, 0
  {
    hide RoleOf;
    hide Size;
    hide Wf;
    hide Sound;
    var z := at + Size(b.head);
    var mid := if b.tail.Nil? then out else z;
    var r := RoleOf(b.head, at, q, mid);
    Leads(b.head, at, q, mid);
    HeadRole(b, at, q + 3, out);
    HeadRole(b, at, NextPlace(r), out);
    HeadRole(b, at, EndPlace(r), out);
    if b.tail.Cons? {
      BeginsB(b.tail, z, out);
    }
    Wider(r, q, mid, RoleOf(b.head, at, q + 3, mid), RoleOf(b.head, at, NextPlace(r), mid),
          RoleOf(b.head, at, EndPlace(r), mid),
          out, RoleOfB(b, at, q + 3, out), RoleOfB(b, at, NextPlace(r), out), RoleOfB(b, at, EndPlace(r), out));
  }

  lemma BeginsB(b: Branch, at: int, out: int)
    requires b.Cons?
    ensures RoleOfB(b, at, at, out) != NoNode
  {
    Begins(b.head, at, if b.tail.Nil? then out else at + Size(b.head));
  }

  lemma FirstRole(a: Alts, at: int, q: int, end: int)
    requires a.ACons?
    ensures var r := RoleOfB(a.first, at + 3, q, end); r != NoNode ==> RoleOfA(a, at, q, end) == r
  {
    InsideB(a.first, at + 3, q, end);
  }

  lemma RestRole(a: Alts, at: int, q: int, end: int)
    requires a.ACons?
    ensures var r := RoleOfA(a.rest, at + 3 + SizeB(a.first), q, end); r != NoNode ==> RoleOfA(a, at, q, end) == r
  {
    InsideA(a.rest, at + 3 + SizeB(a.first), q, end);
  }

  lemma {:induction false} LeadsA(a: Alts, at: int, q: int, end: int)
    requires WfA(a) && at + SizeA(a) == end
    ensures SoundInA(a, at, q, end)
    ensures RoleOfA(a, at, q, end).Branching? ==> RoleOfA(a, at, q, end).end <= end
    decreases a
  {
    if a.ACons? {
      var z := at + 3 + SizeB(a.first);
      if q == at {
        BeginsB(a.first, at + 3, end);
        FirstRole(a, at, at + 3, end);
        InsideA(a, at, end, end);
      } else if q < z {
        LeadsFirst(a, at, q, end);
      } else {
        LeadsRest(a, at, q, end);
      }
    }
  }

  lemma {:induction false} LeadsFirst(a: Alts, at: int, q: int, end: int)
    requires WfA(a) && a.ACons? && at + SizeA(a) == end && at != q < at + 3 + SizeB(a.first)
    ensures SoundInA(a, at, q, end)
    ensures RoleOfA(a, at, q, end).Branching? ==> RoleOfA(a, at, q, end).end <= end
    decreases a, 0
  {
    var b, p := a.first, at + 3;
    var r := RoleOfB(b, p, q, end);
    LeadsB(b, p, q, end);
    FirstRole(a, at, q + 3, end);
    FirstRole(a, at, NextPlace(r), end);
    FirstRole(a, at, EndPlace(r), end);
    Wider(r, q, end, RoleOfB(b, p, q + 3, end), RoleOfB(b, p, NextPlace(r), end), RoleOfB(b, p, EndPlace(r), end),
          end, RoleOfA(a, at, q + 3, end), RoleOfA(a, at, NextPlace(r), end), RoleOfA(a, at, EndPlace(r), end));
  }

  lemma {:induction false} LeadsRest(a: Alts, at: int, q: int, end: int)
    requires WfA(a) && a.ACons? && at + SizeA(a) == end && q >= at + 3 + SizeB(a.first)
    ensures SoundInA(a, at, q, end)
    ensures RoleOfA(a, at, q, end).Branching? ==> RoleOfA(a, at, q, end).end <= end
    decreases a, 0
  {
    var z := at + 3 + SizeB(a.first);
    var r := RoleOfA(a.rest, z, q, end);
    LeadsA(a.rest, z, q, end);
    RestRole(a, at, q + 3, end);
    RestRole(a, at, NextPlace(r), end);
    RestRole(a, at, EndPlace(r), end);
    InsideA(a, at, end, end);
  }

  // ----- loops do not cross -----

  /** Where the node at q and what it leads to can be. */
  predicate Within(r: Role, q: int, lo: int, hi: int, out: int) {
    match r
    case NoNode => true
    case Plain(n) => lo <= q < n && q + 3 <= hi && (n == out || n + 3 <= hi)
    case Branching(n, e) => lo <= q < n && q + 3 <= hi && (n == out || n + 3 <= hi)
    case Looping(h, low) => lo + 3 <= low <= q && q + 3 <= hi
  }

  lemma Bounds(re: Re, at: int, q: int, out: int)
    requires Wf(re) && at + Size(re) <= out
    ensures Within(RoleOf(re, at, q, out), q, at, at + Size(re), out)
  {
    hide RoleOf;
    hide Size;
    hide Wf;
    var r := RoleOf(re, at, q, out);
    Leads(re, at, q, out);
    Inside(re, at, q, out);
    Inside(re, at, NextPlace(r), out);
    Inside(re, at, EndPlace(r), out);
  }

  lemma BoundsB(b: Branch, at: int, q: int, out: int)
    requires WfB(b) && at + SizeB(b) <= out
    ensures Within(RoleOfB(b, at, q, out), q, at, at + SizeB(b), out)
  {
    hide RoleOfB;
    hide SizeB;
    hide WfB;
    var r := RoleOfB(b, at, q, out);
    LeadsB(b, at, q, out);
    InsideB(b, at, q, out);
    InsideB(b, at, NextPlace(r), out);
    InsideB(b, at, EndPlace(r), out);
  }

  lemma BoundsA(a: Alts, at: int, q: int, end: int)
    requires WfA(a) && at + SizeA(a) == end
    ensures Within(RoleOfA(a, at, q, end), q, at, at + SizeA(a), end)
  {
    hide RoleOfA;
    hide SizeA;
    hide WfA;
    var r := RoleOfA(a, at, q, end);
    LeadsA(a, at, q, end);
    InsideA(a, at, q, end);
    InsideA(a, at, NextPlace(r), end);
    InsideA(a, at, EndPlace(r), end);
  }

  /** No link leads into the part of a loop that leads to its end, or out of it. */
  predicate Closed(p: int, r: Role, q: int, loop: Role) {
    loop.Looping? && (r.Plain? || r.Branching?) ==>
      && (loop.low <= p < q ==> r.next <= q)
      && (loop.low <= r.next <= q ==> loop.low <= p)
  }

  lemma {:induction false} Nested(re: Re, at: int, p: int, q: int, out: int)
    requires Wf(re) && at + Size(re) <= out
    ensures Closed(p, RoleOf(re, at, p, out), q, RoleOf(re, at, q, out))
    decreases re
  {
    if Compound(re) {
      var r, l := InnerRole(re, at, p), InnerRole(re, at, q);
      if r != NoNode && l != NoNode {
        NestedInner(re, at, p, q, out);
      } else {
        NestedOwn(re, at, p, q, out);
      }
    }
  }

  lemma {:induction false} NestedInner(re: Re, at: int, p: int, q: int, out: int)
    requires Wf(re) && at + Size(re) <= out && Compound(re)
    requires InnerRole(re, at, p) != NoNode && InnerRole(re, at, q) != NoNode
    ensures Closed(p, RoleOf(re, at, p, out), q, RoleOf(re, at, q, out))
    decreases re, 0
  {
    hide RoleOf;
    hide RoleOfA;
    hide Closed;
    SameRole(re, at, p, out);
    SameRole(re, at, q, out);
    match re {
      case Group(_, alts) => NestedA(alts, at + 3, p, q, InnerOut(re, at));
      case Star(x) => Nested(x, at + 3, p, q, InnerOut(re, at));
      case Plus(x) => Nested(x, at, p, q, InnerOut(re, at));
      case Opt(x) => Nested(x, at + 3, p, q, InnerOut(re, at));
    }
  }

  /** At most one of the two nodes is in the operand. */
  lemma NestedOwn(re: Re, at: int, p: int, q: int, out: int)
    requires Wf(re) && at + Size(re) <= out && Compound(re)
    requires InnerRole(re, at, p) == NoNode || InnerRole(re, at, q) == NoNode
    ensures Closed(p, RoleOf(re, at, p, out), q, RoleOf(re, at, q, out))
  {
    hide RoleOfA;
    hide SizeA;
    InnerBounds(re, at, p);
    InnerBounds(re, at, q);
  }

  lemma InnerBounds(re: Re, at: int, q: int)
    requires Wf(re) && Compound(re)
    ensures var lo := if re.Plus? then at else at + 3;
            var hi := if re.Opt? then InnerOut(re, at) - 3 else InnerOut(re, at);
            Within(InnerRole(re, at, q), q, lo, hi, InnerOut(re, at))
  {
    hide RoleOf;
    hide RoleOfA;
    match re {
      case Group(_, alts) => BoundsA(alts, at + 3, q, InnerOut(re, at));
      case Star(x) => Bounds(x, at + 3, q, InnerOut(re, at));
      case Plus(x) => Bounds(x, at, q, InnerOut(re, at));
      case Opt(x) => Bounds(x, at + 3, q, InnerOut(re, at));
    }
  }

  lemma {:induction false} NestedB(b: Branch, at: int, p: int, q: int, out: int)
    requires WfB(b) && at + SizeB(b) <= out
    ensures Closed(p, RoleOfB(b, at, p, out), q, RoleOfB(b, at, q, out))
    decreases b
  {
    if b.Cons? {
      hide RoleOf;
      var z := at + Size(b.head);
      var mid := if b.tail.Nil? then out else z;
      Bounds(b.head, at, p, mid);
      Bounds(b.head, at, q, mid);
      BoundsB(b.tail, z, p, out);
      BoundsB(b.tail, z, q, out);
      Nested(b.head, at, p, q, mid);
      NestedB(b.tail, z, p, q, out);
    }
  }

  lemma {:induction false} NestedA(a: Alts, at: int, p: int, q: int, end: int)
    requires WfA(a) && at + SizeA(a) == end
    ensures Closed(p, RoleOfA(a, at, p, end), q, RoleOfA(a, at, q, end))
    decreases a
  {
    if a.ACons? {
      var z := at + 3 + SizeB(a.first);
      BoundsB(a.first, at + 3, p, end);
      BoundsB(a.first, at + 3, q, end);
      BoundsA(a.rest, z, p, end);
      BoundsA(a.rest, z, q, end);
      NestedB(a.first, at + 3, p, q, end);
      NestedA(a.rest, z, p, q, end);
    }
  }

  // ----- the cells -----

  /** The cells at q are the node that the layout has there. */
  predicate Stands(prog: Cells, q: int, r: Role) {
    r == NoNode ||
    (&& 0 <= q && q + 2 < |prog| && RegNext(prog, q) == NextPlace(r) && prog[q] != END
     && (prog[q] == BACK <==> r.Looping?) && (prog[q] == BRANCH <==> r.Branching?)
     && (prog[q] == STAR || prog[q] == PLUS ==> q + 5 < |prog| && LinkAt(prog, q + 3) == 0))
  }

  lemma NodeStands(prog: Cells, q: int, op: int, link: nat)
    requires Has(prog, q, Node(op, link)) && 0 < link <= MAX_PROGRAM
    ensures 0 <= q && q + 2 < |prog| && prog[q] == op && RegNext(prog, q) == if op == BACK then q - link else q + link
  {
    hide LinkAt;
    HasNode(prog, q, op, link);
  }

  lemma LeafOp(re: Re, link: nat)
    requires !Compound(re)
    ensures var op := Emit(re, link)[0];
            op != BACK && op != BRANCH && op != END && (op == STAR || op == PLUS ==> re.Star? || re.Plus?)
    ensures TailAt(re) == 0
  {
  }

  lemma LeafStands(prog: Cells, p: int, re: Re, link: nat)
    requires !Compound(re) && Has(prog, p, Emit(re, link)) && 0 < link <= MAX_PROGRAM
    ensures Stands(prog, p, Plain(p + link))
  {
    hide Emit;
    hide LinkAt;
    LeafOp(re, link);
    TailLink(prog, p, re, link);
    var code := Emit(re, link);
    assert Cell(prog, p, code, 0);
    if re.Star? || re.Plus? {
      SimpleOperand(prog, p, re, link);
    }
  }

  lemma SimpleOperand(prog: Cells, p: int, re: Re, link: nat)
    requires (re.Star? || re.Plus?) && Simple(re.x) && Has(prog, p, Emit(re, link))
    ensures p + 5 < |prog| && LinkAt(prog, p + 3) == 0
  {
    hide Has;
    hide LinkAt;
    SimpleParts(prog, p, if re.Star? then STAR else PLUS, re.x, link);
    HasBounds(prog, p + 3, Emit(re.x, 0));
    TailLink(prog, p + 3, re.x, 0);
  }

  lemma {:induction false} FragmentStands(prog: Cells, p: int, re: Re, link: nat, q: int)
    requires Wf(re) && |prog| <= MAX_PROGRAM && Has(prog, p, Emit(re, link)) && 0 < link <= MAX_PROGRAM
    ensures Stands(prog, q, RoleOf(re, p, q, p + TailAt(re) + link))
    decreases re, 1
  {
    hide Emit;
    hide Has;
    hide RegNext;
    match re
    case Group(n, alts) => GroupStands(prog, p, n, alts, link, q);
    case Star(x) =>
      if Simple(x) {
        LeafStands(prog, p, re, link);
      } else {
        StarStands(prog, p, x, link, q);
      }
    case Plus(x) =>
      if Simple(x) {
        LeafStands(prog, p, re, link);
      } else {
        PlusStands(prog, p, x, link, q);
      }
    case Opt(x) => OptStands(prog, p, x, link, q);
    case _ => LeafStands(prog, p, re, link);
  }

  lemma {:induction false} GroupStands(prog: Cells, p: int, n: nat, alts: Alts, link: nat, q: int)
    requires Wf(Group(n, alts)) && |prog| <= MAX_PROGRAM && Has(prog, p, Emit(Group(n, alts), link))
             && 0 < link <= MAX_PROGRAM
    ensures Stands(prog, q, RoleOf(Group(n, alts), p, q, p + 3 + SizeA(alts) + link))
    decreases alts, 1
  {
    hide EmitA;
    hide Has;
    GroupParts(prog, p, n, EmitA(alts, 0), link);
    NodeStands(prog, p, SUB_OPEN + n, 3);
    NodeStands(prog, p + 3 + SizeA(alts), SUB_CLOSE + n, link);
    ChoiceStands(prog, p + 3, alts, q);
  }

  lemma {:induction false} StarStands(prog: Cells, p: int, x: Re, link: nat, q: int)
    requires Wf(Star(x)) && !Simple(x) && |prog| <= MAX_PROGRAM && Has(prog, p, Emit(Star(x), link))
             && 0 < link <= MAX_PROGRAM
    ensures Stands(prog, q, RoleOf(Star(x), p, q, p + 9 + Size(x) + link))
    decreases x, 2
  {
    hide Emit;
    hide Has;
    var body := Emit(x, Onward(x));
    StarEmit(x, link);
    HasBounds(prog, p, StarCode(body, link));
    StarParts(prog, p, body, link);
    NodeStands(prog, p, BRANCH, |body| + 6);
    NodeStands(prog, p + 3 + |body|, BACK, |body| + 3);
    NodeStands(prog, p + 6 + |body|, BRANCH, 3);
    NodeStands(prog, p + 9 + |body|, NOTHING, link);
    FragmentStands(prog, p + 3, x, Onward(x), q);
  }

  lemma {:induction false} PlusStands(prog: Cells, p: int, x: Re, link: nat, q: int)
    requires Wf(Plus(x)) && !Simple(x) && |prog| <= MAX_PROGRAM && Has(prog, p, Emit(Plus(x), link))
             && 0 < link <= MAX_PROGRAM
    ensures Stands(prog, q, RoleOf(Plus(x), p, q, p + 9 + Size(x) + link))
    decreases x, 2
  {
    hide Emit;
    hide Has;
    var body := Emit(x, Onward(x));
    StarEmit(x, link);
    HasBounds(prog, p, PlusCode(body, link));
    PlusParts(prog, p, body, link);
    NodeStands(prog, p + |body|, BRANCH, 6);
    NodeStands(prog, p + 3 + |body|, BACK, |body| + 3);
    NodeStands(prog, p + 6 + |body|, BRANCH, 3);
    NodeStands(prog, p + 9 + |body|, NOTHING, link);
    FragmentStands(prog, p, x, Onward(x), q);
  }

  lemma {:induction false} OptStands(prog: Cells, p: int, x: Re, link: nat, q: int)
    requires Wf(Opt(x)) && |prog| <= MAX_PROGRAM && Has(prog, p, Emit(Opt(x), link)) && 0 < link <= MAX_PROGRAM
    ensures Stands(prog, q, RoleOf(Opt(x), p, q, p + 6 + Size(x) + link))
    decreases x, 2
  {
    hide Emit;
    hide Has;
    hide Node;
    hide OptCode;
    hide RegNext;
    hide LinkAt;
    var body := Emit(x, Onward(x) + 3);
    OptEmit(x, link);
    HasBounds(prog, p, OptCode(body, link));
    OptParts(prog, p, body, link);
    NodeStands(prog, p, BRANCH, |body| + 3);
    NodeStands(prog, p + 3 + |body|, BRANCH, 3);
    NodeStands(prog, p + 6 + |body|, NOTHING, link);
    FragmentStands(prog, p + 3, x, Onward(x) + 3, q);
  }

  lemma {:induction false} BranchStands(prog: Cells, p: int, b: Branch, link: nat, q: int)
    requires b.Cons? && WfB(b) && |prog| <= MAX_PROGRAM && Has(prog, p, EmitB(b, link)) && 0 < link <= MAX_PROGRAM
    ensures Stands(prog, q, RoleOfB(b, p, q, p + TailAtB(b) + link))
    decreases b
  {
    hide Emit;
    hide Has;
    hide Stands;
    hide RoleOf;
    if b.tail.Nil? {
      FragmentStands(prog, p, b.head, link, q);
      Inside(b.head, p, q, p + TailAtB(b) + link);
    } else {
      HasSplit(prog, p, Emit(b.head, Onward(b.head)), EmitB(b.tail, link));
      HasBounds(prog, p, Emit(b.head, Onward(b.head)));
      FragmentStands(prog, p, b.head, Onward(b.head), q);
      BranchStands(prog, p + Size(b.head), b.tail, link, q);
    }
  }

  lemma {:induction false} ChoiceStands(prog: Cells, p: int, a: Alts, q: int)
    requires WfA(a) && |prog| <= MAX_PROGRAM && Has(prog, p, EmitA(a, 0))
    ensures Stands(prog, q, RoleOfA(a, p, q, p + SizeA(a)))
    decreases a, 0
  {
    hide EmitA;
    hide EmitB;
    hide Has;
    hide RoleOfB;
    hide RegNext;
    hide WfB;
    hide SizeB;
    if a.ACons? {
      var b, z := a.first, p + 3 + SizeB(a.first);
      HasBounds(prog, p, EmitA(a, 0));
      ChoiceParts(prog, p, a, 0);
      NodeStands(prog, p, BRANCH, 3 + SizeB(b));
      BranchStands(prog, p + 3, b, OnwardB(b) + SizeA(a.rest), q);
      ChoiceStands(prog, z, a.rest, q);
    }
  }

  // ----- whole programs -----

  /** Where END stands. */
  function EndOf(alts: Alts): int {
    1 + SizeA(alts)
  }

  function RoleAt(alts: Alts, p: int): Role {
    RoleOfA(alts, 1, p, EndOf(alts))
  }

  /** A node of the program starts at p; the operand of a STAR or PLUS node is part of that node. */
  predicate IsStart(alts: Alts, p: int) {
    p == EndOf(alts) || RoleAt(alts, p) != NoNode
  }

  /** The pattern has a loop with its first node at head and its BACK at q; the nodes from low on are its operand. */
  predicate IsLoop(alts: Alts, head: int, low: int, q: int) {
    RoleAt(alts, q) == Looping(head, low)
  }

  lemma StartStands(alts: Alts, p: int)
    requires WfA(alts) && |Program(alts)| <= MAX_PROGRAM && IsStart(alts, p)
    ensures var prog := Program(alts);
            && 0 <= p && p + 2 < |prog| && (prog[p] == END <==> p == EndOf(alts))
            && (p != EndOf(alts) ==> Stands(prog, p, RoleAt(alts, p)))
            && (p == EndOf(alts) ==> RoleAt(alts, p) == NoNode)
  {
    hide EmitA;
    hide RoleOfA;
    var prog := Program(alts);
    ProgramParts(alts);
    InsideA(alts, 1, p, EndOf(alts));
    if p != EndOf(alts) {
      ChoiceStands(prog, 1, alts, p);
    } else {
      HasNode(prog, p, END, 0);
    }
  }

  /**
   Every link of every program: from a node to a node, forward unless it is the
   end of a loop, and from there to the head of the loop. A branch has its
   operand behind it, and the link of the operand of a STAR or PLUS is not set.
   */
  lemma ProgramLinks(alts: Alts, p: int)
    requires alts.ACons? && WfA(alts) && |Program(alts)| <= MAX_PROGRAM
    ensures IsStart(alts, 1)
    ensures IsStart(alts, p) ==>
              var prog := Program(alts);
              && 0 <= p && p + 2 < |prog| && (prog[p] == END <==> p == EndOf(alts))
              && (p != EndOf(alts) ==>
                    && IsStart(alts, RegNext(prog, p))
                    && (prog[p] != BACK ==> RegNext(prog, p) > p)
                    && (prog[p] == BACK ==>
                          RegNext(prog, p) < p && exists low :: IsLoop(alts, RegNext(prog, p), low, p)))
              && (prog[p] == BRANCH ==> IsStart(alts, p + 3))
              && (prog[p] == STAR || prog[p] == PLUS ==> p + 5 < |prog| && LinkAt(prog, p + 3) == 0)
  {
    if IsStart(alts, p) {
      hide RoleOfA;
      StartStands(alts, p);
      LeadsA(alts, 1, p, EndOf(alts));
      var r := RoleAt(alts, p);
      if r.Looping? {
        assert IsLoop(alts, r.head, r.low, p);
      }
    }
  }

  /** Where the links lead from p as long as there are BRANCH nodes. */
  function ChainEnd(prog: Cells, p: int): int
    decreases |prog| - p
  {
    if 0 <= p && p + 2 < |prog| && prog[p] == BRANCH && p < RegNext(prog, p) < |prog| then
      ChainEnd(prog, RegNext(prog, p))
    else p
  }

  /** The chain of a choice passes BRANCH nodes only and ends at the node behind that very choice, which is none. */
  lemma {:induction false} ChainsEnd(alts: Alts, p: int)
    requires WfA(alts) && |Program(alts)| <= MAX_PROGRAM && RoleAt(alts, p).Branching?
    ensures var prog := Program(alts); var e := ChainEnd(prog, p);
            && e == RoleAt(alts, p).end && p < e && IsStart(alts, e) && e + 2 < |prog| && prog[e] != BRANCH
    decreases EndOf(alts) - p
  {
    hide RoleOfA;
    hide RegNext;
    var prog := Program(alts);
    StartStands(alts, p);
    LeadsA(alts, 1, p, EndOf(alts));
    var r := RoleAt(alts, p);
    StartStands(alts, r.end);
    StartStands(alts, r.next);
    if r.next != r.end {
      ChainsEnd(alts, r.next);
    }
  }

  /** Where the links lead from p as long as they do not lead back. */
  function FollowTo(prog: Cells, p: int): int
    decreases |prog| - p
  {
    if 0 <= p && p + 2 < |prog| && prog[p] != BACK && prog[p] != END && p < RegNext(prog, p) < |prog|
    then FollowTo(prog, RegNext(prog, p))
    else p
  }

  /**
   Following the links forward from any node ends at the BACK of the innermost
   loop that has the node in its operand, and at END if there is no such loop.
   */
  lemma {:induction false} FollowedTo(alts: Alts, p: int)
    requires WfA(alts) && |Program(alts)| <= MAX_PROGRAM && IsStart(alts, p)
    ensures var f := FollowTo(Program(alts), p);
            && p <= f
            && (f == EndOf(alts) || exists head, low :: IsLoop(alts, head, low, f) && low <= p)
            && forall head, low, q :: IsLoop(alts, head, low, q) && low <= p <= q ==> f <= q < EndOf(alts)
    decreases EndOf(alts) - p
  {
    hide RoleOfA;
    hide RegNext;
    var prog, r := Program(alts), RoleAt(alts, p);
    StartStands(alts, p);
    InsideA(alts, 1, p, EndOf(alts));
    forall head, low, q | IsLoop(alts, head, low, q) ensures q < EndOf(alts) {
      InsideA(alts, 1, q, EndOf(alts));
    }
    if r.Looping? {
      LeadsA(alts, 1, p, EndOf(alts));
      assert IsLoop(alts, r.head, r.low, p);
    } else if r != NoNode {
      FollowStep(alts, p);
    }
  }

  lemma {:induction false} FollowStep(alts: Alts, p: int)
    requires WfA(alts) && |Program(alts)| <= MAX_PROGRAM && (RoleAt(alts, p).Plain? || RoleAt(alts, p).Branching?)
    ensures var f := FollowTo(Program(alts), p);
            && p <= f
            && (f == EndOf(alts) || exists head, low :: IsLoop(alts, head, low, f) && low <= p)
            && forall head, low, q :: IsLoop(alts, head, low, q) && low <= p <= q ==> f <= q
    decreases EndOf(alts) - p, 0
  {
    hide RoleOfA;
    hide FollowTo;
    hide Program;
    OneLink(alts, p);
    var n := RoleAt(alts, p).next;
    FollowedTo(alts, n);
    var f := FollowTo(Program(alts), n);
    if f != EndOf(alts) {
      var head, low :| IsLoop(alts, head, low, f) && low <= n;
      NestedA(alts, 1, p, f, EndOf(alts));
      assert IsLoop(alts, head, low, f) && low <= p;
    }
    forall head, low, q | IsLoop(alts, head, low, q) && low <= p <= q ensures f <= q {
      NestedA(alts, 1, p, q, EndOf(alts));
    }
  }

  lemma OneLink(alts: Alts, p: int)
    requires WfA(alts) && |Program(alts)| <= MAX_PROGRAM && (RoleAt(alts, p).Plain? || RoleAt(alts, p).Branching?)
    ensures var n := RoleAt(alts, p).next;
            p < n <= EndOf(alts) && IsStart(alts, n) && FollowTo(Program(alts), p) == FollowTo(Program(alts), n)
  {
    hide RoleOfA;
    hide RegNext;
    StartStands(alts, p);
    LeadsA(alts, 1, p, EndOf(alts));
    BoundsA(alts, 1, p, EndOf(alts));
    StartStands(alts, RoleAt(alts, p).next);
  }
}
