/**
 Patterns of the regular-expression library: the syntax trees, the flags that
 the compiler passes up, and the recursive-descent grammar as a pure function
 from pattern text to tree or to one of the compiler's complaints.
 */
module RegexSyntax {

  /** A character of a C string: never the terminating NUL. */
  type Ch = c: int | 0 < c < 256 witness 1

  type Text = seq<Ch>

  const NUL := 0
  const DOLLAR := 36     // '$'
  const LPAREN := 40     // '('
  const RPAREN := 41     // ')'
  const ASTERISK := 42   // '*'
  const PLUS_SIGN := 43  // '+'
  const HYPHEN := 45     // '-'
  const DOT := 46        // '.'
  const QUESTION := 63   // '?'
  const LBRACKET := 91   // '['
  const BACKSLASH := 92  // '\'
  const RBRACKET := 93   // ']'
  const CARET := 94      // '^'
  const BAR := 124       // '|'

  /** Slots for the whole match and for subexpressions 1 to 9. */
  const NSUBEXP := 10

  datatype Re =
    | Nothing
    | Bol
    | Eol
    | Any
    | AnyOf(cs: Text)
    | AnyBut(cs: Text)
    | Lit(text: Text)
    | Group(no: nat, alts: Alts)
    | Star(x: Re)
    | Plus(x: Re)
    | Opt(x: Re)

  /** The pieces of one alternative, in order. */
  datatype Branch = Nil | Cons(head: Re, tail: Branch)

  /** The alternatives of one choice, in order. */
  datatype Alts = ANil | ACons(first: Branch, rest: Alts)

  function Snoc(b: Branch, p: Re): (r: Branch)
    ensures r.Cons?
  {
    match b
    case Nil => Cons(p, Nil)
    case Cons(q, t) => Cons(q, Snoc(t, p))
  }

  function SnocA(a: Alts, b: Branch): (r: Alts)
    ensures r.ACons?
  {
    match a
    case ANil => ACons(b, ANil)
    case ACons(f, t) => ACons(f, SnocA(t, b))
  }

  function AppendA(a: Alts, b: Alts): Alts {
    match a
    case ANil => b
    case ACons(f, t) => ACons(f, AppendA(t, b))
  }

  lemma AppendSnocA(a: Alts, b: Branch, t: Alts)
    ensures AppendA(SnocA(a, b), t) == AppendA(a, ACons(b, t))
    ensures AppendA(a, ANil) == a
  {
  }

  // ----- flags -----

  /** HASWIDTH, SIMPLE and SPSTART. */
  datatype Flags = Flags(width: bool, simple: bool, spstart: bool)

  const WORST := Flags(false, false, false)

  /** Known never to match the empty string. */
  predicate HasWidth(re: Re) {
    match re
    case Nothing => false
    case Bol => false
    case Eol => false
    case Any => true
    case AnyOf(_) => true
    case AnyBut(_) => true
    case Lit(_) => true
    case Group(_, alts) => HasWidthA(alts)
    case Star(_) => false
    case Plus(_) => true
    case Opt(_) => false
  }

  predicate HasWidthB(b: Branch) {
    match b
    case Nil => false
    case Cons(p, t) => HasWidth(p) || HasWidthB(t)
  }

  predicate HasWidthA(a: Alts) {
    match a
    case ANil => true
    case ACons(b, t) => HasWidthB(b) && HasWidthA(t)
  }

  /** Matches exactly one character, so it can be the operand of STAR and PLUS. */
  predicate Simple(re: Re) {
    re.Any? || re.AnyOf? || re.AnyBut? || (re.Lit? && |re.text| == 1)
  }

  /** Starts with something that can involve a lot of backing up. */
  predicate SpStart(re: Re) {
    match re
    case Group(_, alts) => SpStartA(alts)
    case Star(_) => true
    case Plus(_) => true
    case _ => false
  }

  predicate SpStartB(b: Branch) {
    match b
    case Nil => false
    case Cons(p, _) => SpStart(p)
  }

  predicate SpStartA(a: Alts) {
    match a
    case ANil => false
    case ACons(b, t) => SpStartB(b) || SpStartA(t)
  }

  function FlagsOf(re: Re): Flags {
    Flags(HasWidth(re), Simple(re), SpStart(re))
  }

  function FlagsOfB(b: Branch): Flags {
    Flags(HasWidthB(b), false, SpStartB(b))
  }

  function FlagsOfA(a: Alts): Flags {
    Flags(HasWidthA(a), false, SpStartA(a))
  }

  // ----- well-formed trees -----

  /** Something a repetition operator may be applied to. */
  predicate IsAtom(re: Re) {
    !re.Nothing? && !re.Star? && !re.Plus? && !re.Opt?
  }

  /**
   What the compiler guarantees of every tree it accepts. The clause on Star
   and Plus is the "operand could be empty" check.
   */
  predicate Wf(re: Re) {
    match re
    case Lit(t) => |t| > 0
    case Group(n, alts) => 0 < n < NSUBEXP && alts.ACons? && WfA(alts)
    case Star(x) => IsAtom(x) && HasWidth(x) && Wf(x)
    case Plus(x) => IsAtom(x) && HasWidth(x) && Wf(x)
    case Opt(x) => IsAtom(x) && Wf(x)
    case _ => true
  }

  predicate WfB(b: Branch) {
    match b
    case Nil => true
    case Cons(p, t) => Wf(p) && WfB(t)
  }

  predicate WfA(a: Alts) {
    match a
    case ANil => true
    case ACons(b, t) => b.Cons? && WfB(b) && WfA(t)
  }

  lemma SnocWf(b: Branch, p: Re)
    ensures WfB(Snoc(b, p)) <==> WfB(b) && Wf(p)
    ensures HasWidthB(Snoc(b, p)) <==> HasWidthB(b) || HasWidth(p)
    ensures SpStartB(Snoc(b, p)) <==> if b.Nil? then SpStart(p) else SpStartB(b)
  {
  }

  lemma SnocAWf(a: Alts, b: Branch)
    ensures WfA(SnocA(a, b)) <==> WfA(a) && b.Cons? && WfB(b)
    ensures HasWidthA(SnocA(a, b)) <==> HasWidthA(a) && HasWidthB(b)
    ensures SpStartA(SnocA(a, b)) <==> SpStartA(a) || SpStartB(b)
  {
  }

  // ----- the grammar -----

  datatype Error =
    | TooManyParens
    | UnterminatedParen
    | UnmatchedParen
    | JunkOnEnd
    | EmptyRepeat
    | NestedRepeat
    | InvalidRange
    | UnmatchedBracket
    | Unexpected
    | RepeatFollowsNothing
    | TrailingBackslash
    | StrcspnZero
    | TooBig

  /** A tree, the position where scanning stopped and the next group number. */
  datatype Parsed<T> = Ok(v: T, pos: nat, npar: nat) | Bad(e: Error)

  /** The character at a position, or the NUL that ends the pattern. */
  function Peek(pat: Text, pos: nat): (c: int)
    ensures 0 <= c < 256
    ensures c != NUL <==> pos < |pat|
  {
    if pos < |pat| then pat[pos] else NUL
  }

  predicate IsRepn(c: int) {
    c == ASTERISK || c == PLUS_SIGN || c == QUESTION
  }

  predicate IsMeta(c: int) {
    c == CARET || c == DOLLAR || c == DOT || c == LBRACKET || c == LPAREN || c == RPAREN ||
    c == BAR || c == QUESTION || c == PLUS_SIGN || c == ASTERISK || c == BACKSLASH
  }

  /** strcspn(pat + pos, META): the run of ordinary characters at a position. */
  function OrdinaryRun(pat: Text, pos: nat): (n: nat)
    requires pos <= |pat|
    ensures pos + n <= |pat|
    ensures forall k :: pos <= k < pos + n ==> !IsMeta(pat[k])
    ensures pos + n < |pat| ==> IsMeta(pat[pos + n])
    decreases |pat| - pos
  {
    if pos == |pat| || IsMeta(pat[pos]) then 0 else 1 + OrdinaryRun(pat, pos + 1)
  }

  /** The characters after lo up to hi, as a range in brackets adds them. */
  function After(lo: Ch, hi: Ch): (r: Text)
    requires lo <= hi
    ensures |r| == hi - lo
    ensures forall k :: 0 <= k < |r| ==> r[k] == lo + 1 + k
    decreases hi - lo
  {
    if lo == hi then [] else [lo + 1] + After(lo + 1, hi)
  }

  /** The members of a bracketed class, from a position after its opening. */
  function ParseClass(pat: Text, pos: nat, npar: nat, acc: Text): (r: Parsed<Text>)
    requires 0 < pos <= |pat|
    ensures r.Ok? ==> pos < r.pos <= |pat| && r.npar == npar && acc <= r.v
    decreases |pat| - pos
  {
    var c := Peek(pat, pos);
    if c == NUL then Bad(UnmatchedBracket)
    else if c == RBRACKET then Ok(acc, pos + 1, npar)
    else if c != HYPHEN then ParseClass(pat, pos + 1, npar, acc + [c])
    else
      var hi := Peek(pat, pos + 1);
      if hi == RBRACKET || hi == NUL then ParseClass(pat, pos + 1, npar, acc + [HYPHEN])
      else
        var lo := pat[pos - 1];
        if lo > hi then Bad(InvalidRange)
        else ParseClass(pat, pos + 2, npar, acc + After(lo, hi))
  }

  /** A class from the character after its '[' or "[^": a leading ']' or '-' is literal. */
  function ParseBracket(pat: Text, pos: nat, npar: nat): (r: Parsed<Text>)
    requires 0 < pos <= |pat|
    ensures r.Ok? ==> pos < r.pos <= |pat| && r.npar == npar
  {
    var c := Peek(pat, pos);
    if c == RBRACKET || c == HYPHEN then ParseClass(pat, pos + 1, npar, [c])
    else ParseClass(pat, pos, npar, [])
  }

  function ParseAtom(pat: Text, pos: nat, npar: nat): (r: Parsed<Re>)
    requires pos <= |pat| && 0 < npar
    ensures r.Ok? ==> pos < r.pos <= |pat| && npar <= r.npar && Wf(r.v) && IsAtom(r.v)
    decreases |pat| - pos, 0
  {
    var c := Peek(pat, pos);
    if c == CARET then Ok(Bol, pos + 1, npar)
    else if c == DOLLAR then Ok(Eol, pos + 1, npar)
    else if c == DOT then Ok(Any, pos + 1, npar)
    else if c == LBRACKET then
      if Peek(pat, pos + 1) == CARET then
        match ParseBracket(pat, pos + 2, npar)
        case Ok(cs, pos', npar') => Ok(AnyBut(cs), pos', npar')
        case Bad(e) => Bad(e)
      else
        match ParseBracket(pat, pos + 1, npar)
        case Ok(cs, pos', npar') => Ok(AnyOf(cs), pos', npar')
        case Bad(e) => Bad(e)
    else if c == LPAREN then
      ParseGroup(pat, pos + 1, npar)
    else if c == NUL || c == BAR || c == RPAREN then Bad(Unexpected)
    else if IsRepn(c) then Bad(RepeatFollowsNothing)
    else if c == BACKSLASH then
      if pos + 1 == |pat| then Bad(TrailingBackslash)
      else Ok(Lit([pat[pos + 1]]), pos + 2, npar)
    else
      var run := OrdinaryRun(pat, pos);
      if run == 0 then Bad(StrcspnZero)
      else
        var len := if run > 1 && IsRepn(Peek(pat, pos + run)) then run - 1 else run;
        Ok(Lit(pat[pos..pos + len]), pos + len, npar)
  }

  /** An atom that is a literal. */
  lemma LiteralAtom(pat: Text, pos: nat, npar: nat)
    requires pos <= |pat| && 0 < npar
    requires var c := Peek(pat, pos); c != NUL && (c == BACKSLASH || !IsMeta(c))
    ensures var run := OrdinaryRun(pat, pos);
            var len := if run > 1 && IsRepn(Peek(pat, pos + run)) then run - 1 else run;
            ParseAtom(pat, pos, npar) ==
            if pat[pos] == BACKSLASH then
              if pos + 1 == |pat| then Bad(TrailingBackslash) else Ok(Lit([pat[pos + 1]]), pos + 2, npar)
            else if run == 0 then Bad(StrcspnZero)
            else Ok(Lit(pat[pos..pos + len]), pos + len, npar)
  {
    hide OrdinaryRun;
  }

  /** A parenthesised expression, from behind its opening parenthesis. */
  function ParseGroup(pat: Text, pos: nat, npar: nat): (r: Parsed<Re>)
    requires pos <= |pat| && 0 < npar
    ensures r.Ok? ==> pos < r.pos <= |pat| && npar <= r.npar && Wf(r.v) && r.v.Group?
    decreases |pat| - pos, 4
  {
    if npar >= NSUBEXP then Bad(TooManyParens)
    else
      match ParseAlts(pat, pos, npar + 1, ANil)
      case Bad(e) => Bad(e)
      case Ok(alts, pos', npar') =>
        if Peek(pat, pos') != RPAREN then Bad(UnterminatedParen)
        else Ok(Group(npar, alts), pos' + 1, npar')
  }

  function Repeat(op: int, x: Re): Re
    requires IsRepn(op)
  {
    if op == ASTERISK then Star(x) else if op == PLUS_SIGN then Plus(x) else Opt(x)
  }

  function ParsePiece(pat: Text, pos: nat, npar: nat): (r: Parsed<Re>)
    requires pos <= |pat| && 0 < npar
    ensures r.Ok? ==> pos < r.pos <= |pat| && npar <= r.npar && Wf(r.v) && !r.v.Nothing?
    decreases |pat| - pos, 1
  {
    match ParseAtom(pat, pos, npar)
    case Bad(e) => Bad(e)
    case Ok(x, pos', npar') =>
      var op := Peek(pat, pos');
      if !IsRepn(op) then Ok(x, pos', npar')
      else if !HasWidth(x) && op != QUESTION then Bad(EmptyRepeat)
      else if IsRepn(Peek(pat, pos' + 1)) then Bad(NestedRepeat)
      else Ok(Repeat(op, x), pos' + 1, npar')
  }

  /** Where an alternative stops. */
  predicate IsStop(c: int) {
    c == NUL || c == BAR || c == RPAREN
  }

  /** The pieces acc have been read; read the rest of the alternative. */
  function ParseBranch(pat: Text, pos: nat, npar: nat, acc: Branch): (r: Parsed<Branch>)
    requires pos <= |pat| && 0 < npar && WfB(acc)
    ensures r.Ok? ==> pos <= r.pos <= |pat| && npar <= r.npar && r.v.Cons? && WfB(r.v) && IsStop(Peek(pat, r.pos))
    decreases |pat| - pos, 2
  {
    if IsStop(Peek(pat, pos)) then
      Ok(if acc.Nil? then Cons(Nothing, Nil) else acc, pos, npar)
    else
      match ParsePiece(pat, pos, npar)
      case Bad(e) => Bad(e)
      case Ok(p, pos', npar') =>
        SnocWf(acc, p);
        ParseBranch(pat, pos', npar', Snoc(acc, p))
  }

  /** The alternatives acc have been read; read the rest of the choice. */
  function ParseAlts(pat: Text, pos: nat, npar: nat, acc: Alts): (r: Parsed<Alts>)
    requires pos <= |pat| && 0 < npar && WfA(acc)
    ensures r.Ok? ==> pos <= r.pos <= |pat| && npar <= r.npar && r.v.ACons? && WfA(r.v)
    ensures r.Ok? ==> Peek(pat, r.pos) == NUL || Peek(pat, r.pos) == RPAREN
    decreases |pat| - pos, 3
  {
    match ParseBranch(pat, pos, npar, Nil)
    case Bad(e) => Bad(e)
    case Ok(b, pos', npar') =>
      SnocAWf(acc, b);
      MoreAlts(pat, pos', npar', SnocA(acc, b))
  }

  /** The alternatives acc have been read; another one follows after a '|'. */
  function MoreAlts(pat: Text, pos: nat, npar: nat, acc: Alts): (r: Parsed<Alts>)
    requires pos <= |pat| && 0 < npar && acc.ACons? && WfA(acc) && IsStop(Peek(pat, pos))
    ensures r.Ok? ==> pos <= r.pos <= |pat| && npar <= r.npar && r.v.ACons? && WfA(r.v)
    ensures r.Ok? ==> Peek(pat, r.pos) == NUL || Peek(pat, r.pos) == RPAREN
    decreases |pat| - pos, 0
  {
    if Peek(pat, pos) == BAR then ParseAlts(pat, pos + 1, npar, acc) else Ok(acc, pos, npar)
  }

  /** What has to follow a choice: its closing parenthesis or the end of the pattern. */
  function ParseEnd(pat: Text, r: Parsed<Alts>): (r': Parsed<Alts>)
    requires r.Ok? ==> r.pos <= |pat|
    ensures r'.Ok? ==> r' == r && r.pos == |pat|
  {
    match r
    case Bad(e) => Bad(e)
    case Ok(alts, pos, npar) =>
      if Peek(pat, pos) == NUL then r
      else if Peek(pat, pos) == RPAREN then Bad(UnmatchedParen)
      else Bad(JunkOnEnd)
  }

  /** A whole pattern. */
  function Parse(pat: Text): (r: Parsed<Alts>)
    ensures r.Ok? ==> r.pos == |pat| && r.v.ACons? && WfA(r.v)
  {
    ParseEnd(pat, ParseAlts(pat, 0, 1, ANil))
  }
}
