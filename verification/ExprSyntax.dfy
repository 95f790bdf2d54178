/**
 Expression trees of the back end, the tokens they are printed to with the printer's
 precedence table, and a reader with the grammar of sections 5.1 to 5.16 of
 ISO/IEC 14882:2003, which knows nothing of that table. Java has the same productions for
 the operators it shares (sections 15.15 to 15.25 of the Java Language Specification).
 */
module ExprSyntax {

  datatype BinOp =
    | Or | And | BitOr | ExclOr | BitAnd | Eq | Neq | Lt | Gt | Leq | Geq
    | LeftShift | RightShift | Plus | Minus | Mult | Div | Mod | DotStar | ArrowStar

  datatype UnOp = Neg | Compl | Indirection | AddrOp

  datatype Expr =
    | Ident(name: string)
    | Lit(text: string)
    | Bin(op: BinOp, l: Expr, r: Expr)
    | Cond(c: Expr, a: Expr, b: Expr)
    | Un(uop: UnOp, e: Expr)
    | Call(f: Expr, args: seq<Expr>)
    | Index(arr: Expr, arg: Expr)
    | Member(obj: Expr, arrow: bool, field: string)
    | Bracket(e: Expr)

  /** Operator spellings: * and & serve both as binary and as prefix operators. */
  datatype Sym =
    | BarBar | AmpAmp | Bar | Caret | Amp | EqEq | NotEq | Less | Greater | LessEq | GreaterEq
    | Shl | Shr | PlusSign | MinusSign | Star | Slash | Percent | DotStarSign | ArrowStarSign | Bang | Tilde

  datatype Token =
    | Word(name: string)
    | Literal(text: string)
    | Op(sym: Sym)
    | LParen | RParen | LBracket | RBracket | Comma | Dot | Arrow | Quest | Colon

  function BinSym(op: BinOp): Sym {
    match op
    case Or => BarBar case And => AmpAmp case BitOr => Bar case ExclOr => Caret case BitAnd => Amp
    case Eq => EqEq case Neq => NotEq case Lt => Less case Gt => Greater case Leq => LessEq case Geq => GreaterEq
    case LeftShift => Shl case RightShift => Shr case Plus => PlusSign case Minus => MinusSign
    case Mult => Star case Div => Slash case Mod => Percent case DotStar => DotStarSign case ArrowStar => ArrowStarSign
  }

  function UnSym(op: UnOp): Sym {
    match op case Neg => Bang case Compl => Tilde case Indirection => Star case AddrOp => Amp
  }

  /** OpPrec on operators. */
  function BinPrec(op: BinOp): (p: nat)
    ensures 5 <= p <= 15
  {
    match op
    case Or => 5 case And => 6 case BitOr => 7 case ExclOr => 8 case BitAnd => 9
    case Eq => 10 case Neq => 10 case Lt => 11 case Gt => 11 case Leq => 11 case Geq => 11
    case LeftShift => 12 case RightShift => 12 case Plus => 13 case Minus => 13
    case Mult => 14 case Div => 14 case Mod => 14 case DotStar => 15 case ArrowStar => 15
  }

  /** OpPrec on expressions. */
  function Prec(e: Expr): nat {
    match e
    case Bin(op, _, _) => BinPrec(op)
    case Cond(_, _, _) => 4
    case Un(_, _) => 16
    case Call(_, _) => 17
    case Index(_, _) => 17
    case Member(_, _, _) => 17
    case _ => 20
  }

  function StripBrackets(e: Expr): (r: Expr)
    ensures !r.Bracket? && (r == e || r < e)
  {
    if e.Bracket? then StripBrackets(e.e) else e
  }

  /** The tree without its brackets: what the text means. */
  function Erase(e: Expr): (r: Expr)
    decreases e
  {
    match e
    case Bin(op, l, r) => Bin(op, Erase(l), Erase(r))
    case Cond(c, a, b) => Cond(Erase(c), Erase(a), Erase(b))
    case Un(op, x) => Un(op, Erase(x))
    case Call(f, args) => Call(Erase(f), EraseAll(args))
    case Index(x, i) => Index(Erase(x), Erase(i))
    case Member(x, w, n) => Member(Erase(x), w, n)
    case Bracket(x) => Erase(x)
    case _ => e
  }

  function EraseAll(es: seq<Expr>): (rs: seq<Expr>)
    ensures |rs| == |es|
    decreases es
  {
    if es == [] then [] else [Erase(es[0])] + EraseAll(es[1..])
  }

  // ----- Printing -----

  /** GenCode on expressions. */
  function Print(e: Expr): (ts: seq<Token>)
    ensures ts != []
    decreases e, 0
  {
    match e
    case Ident(n) => [Word(n)]
    case Lit(t) => [Literal(t)]
    case Bin(op, l, r) => Wrapped(l, BinPrec(op)) + [Op(BinSym(op))] + Wrapped(r, BinPrec(op))
    case Cond(c, a, b) => Wrapped(c, 4) + [Quest] + Wrapped(a, 4) + [Colon] + Wrapped(b, 4)
    case Un(op, x) => [Op(UnSym(op))] + Wrapped(x, 16)
    case Call(f, args) =>
      Wrapped(f, 17) + [LParen]
      + (if |args| == 1 then Print(StripBrackets(args[0])) else PrintAll(args))
      + [RParen]
    case Index(x, i) => Wrapped(x, 17) + [LBracket] + Print(i) + [RBracket]
    case Member(x, w, n) => Wrapped(x, 17) + [if w then Arrow else Dot, Word(n)]
    case Bracket(x) => [LParen] + (if x.Bracket? then Print(x.e) else Print(x)) + [RParen]
  }

  function Wrapped(e: Expr, p: nat): (ts: seq<Token>)
    ensures ts != []
    decreases e, 1
  {
    if Prec(e) < p then [LParen] + Print(e) + [RParen] else Print(e)
  }

  function PrintAll(es: seq<Expr>): seq<Token>
    decreases es, 0
  {
    if es == [] then [] else Print(es[0]) + (if |es| == 1 then [] else [Comma] + PrintAll(es[1..]))
  }

  // ----- Reading -----

  datatype Reading = NoParse | Got(e: Expr, rest: seq<Token>)

  datatype Args = NoArgs | GotArgs(es: seq<Expr>, rest: seq<Token>)

  datatype Opt<T> = None | Some(value: T)

  function UnOpOf(s: Sym): Opt<UnOp> {
    match s
    case Bang => Some(Neg) case Tilde => Some(Compl) case Star => Some(Indirection) case Amp => Some(AddrOp)
    case _ => None
  }

  /**
   The operators of each left-associative production, from logical-or-expression, the
   outermost, to pm-expression.
   */
  function Production(p: nat, s: Sym): Opt<BinOp> {
    match p
    // section 5.15: logical-or-expression
    case 5 => (match s case BarBar => Some(Or) case _ => None)
    // section 5.14: logical-and-expression
    case 6 => (match s case AmpAmp => Some(And) case _ => None)
    // section 5.13: inclusive-or-expression
    case 7 => (match s case Bar => Some(BitOr) case _ => None)
    // section 5.12: exclusive-or-expression
    case 8 => (match s case Caret => Some(ExclOr) case _ => None)
    // section 5.11: and-expression
    case 9 => (match s case Amp => Some(BitAnd) case _ => None)
    // section 5.10: equality-expression
    case 10 => (match s case EqEq => Some(Eq) case NotEq => Some(Neq) case _ => None)
    // section 5.9: relational-expression
    case 11 =>
      (match s
       case Less => Some(Lt) case Greater => Some(Gt) case LessEq => Some(Leq) case GreaterEq => Some(Geq)
       case _ => None)
    // section 5.8: shift-expression
    case 12 => (match s case Shl => Some(LeftShift) case Shr => Some(RightShift) case _ => None)
    // section 5.7: additive-expression
    case 13 => (match s case PlusSign => Some(Plus) case MinusSign => Some(Minus) case _ => None)
    // section 5.6: multiplicative-expression
    case 14 => (match s case Star => Some(Mult) case Slash => Some(Div) case Percent => Some(Mod) case _ => None)
    // section 5.5: pm-expression
    case 15 => (match s case DotStarSign => Some(DotStar) case ArrowStarSign => Some(ArrowStar) case _ => None)
    case _ => None
  }

  /** The operator of production p that ts starts with, if any. */
  function BinAt(p: nat, ts: seq<Token>): Opt<BinOp> {
    if ts != [] && ts[0].Op? then Production(p, ts[0].sym) else None
  }

  /** conditional-expression: logical-or-expression [ ? expression : conditional-expression ] */
  function ReadCond(ts: seq<Token>): (r: Reading)
    ensures r.Got? ==> |r.rest| < |ts|
    decreases |ts|, 30
  {
    var c := ReadBin(5, ts);
    if c.Got? && c.rest != [] && c.rest[0].Quest? then
      var a := ReadCond(c.rest[1..]);
      if a.Got? && a.rest != [] && a.rest[0].Colon? then
        var b := ReadCond(a.rest[1..]);
        if b.Got? then Got(Cond(c.e, a.e, b.e), b.rest) else NoParse
      else NoParse
    else c
  }

  /** Production p: operands of the next production with operators of p between them; behind
      pm-expression come unary expressions. */
  function ReadBin(p: nat, ts: seq<Token>): (r: Reading)
    requires 5 <= p <= 16
    ensures r.Got? ==> |r.rest| < |ts|
    decreases |ts|, 28 - p
  {
    if p == 16 then ReadUnary(ts)
    else
      var first := ReadBin(p + 1, ts);
      if first.Got? then BinLoop(p, first.e, first.rest) else NoParse
  }

  function BinLoop(p: nat, acc: Expr, ts: seq<Token>): (r: Reading)
    requires 5 <= p <= 15
    ensures r.Got? ==> |r.rest| <= |ts|
    decreases |ts|, 29
  {
    var op := BinAt(p, ts);
    if op.None? then Got(acc, ts)
    else
      var next := ReadBin(p + 1, ts[1..]);
      if next.Got? then BinLoop(p, Bin(op.value, acc, next.e), next.rest) else NoParse
  }

  function ReadUnary(ts: seq<Token>): (r: Reading)
    ensures r.Got? ==> |r.rest| < |ts|
    decreases |ts|, 11
  {
    if ts != [] && ts[0].Op? then
      var op := UnOpOf(ts[0].sym);
      if op.None? then NoParse
      else
        var x := ReadUnary(ts[1..]);
        if x.Got? then Got(Un(op.value, x.e), x.rest) else NoParse
    else ReadPostfix(ts)
  }

  function ReadPostfix(ts: seq<Token>): (r: Reading)
    ensures r.Got? ==> |r.rest| < |ts|
    decreases |ts|, 10
  {
    var x := ReadPrimary(ts);
    if x.Got? then PostLoop(x.e, x.rest) else NoParse
  }

  function PostLoop(acc: Expr, ts: seq<Token>): (r: Reading)
    ensures r.Got? ==> |r.rest| <= |ts|
    decreases |ts|, 31
  {
    if ts == [] then Got(acc, ts)
    else if ts[0].LParen? then
      var args := if |ts| > 1 && ts[1].RParen? then GotArgs([], ts[1..]) else ReadArgs(ts[1..]);
      if args.GotArgs? && args.rest != [] && args.rest[0].RParen?
      then PostLoop(Call(acc, args.es), args.rest[1..]) else NoParse
    else if ts[0].LBracket? then
      var i := ReadCond(ts[1..]);
      if i.Got? && i.rest != [] && i.rest[0].RBracket? then PostLoop(Index(acc, i.e), i.rest[1..]) else NoParse
    else if ts[0].Dot? || ts[0].Arrow? then
      if |ts| > 1 && ts[1].Word? then PostLoop(Member(acc, ts[0].Arrow?, ts[1].name), ts[2..]) else NoParse
    else Got(acc, ts)
  }

  function ReadArgs(ts: seq<Token>): (r: Args)
    ensures r.GotArgs? ==> |r.rest| < |ts|
    decreases |ts|, 31
  {
    var x := ReadCond(ts);
    if x.NoParse? then NoArgs
    else if x.rest != [] && x.rest[0].Comma? then
      var more := ReadArgs(x.rest[1..]);
      if more.GotArgs? then GotArgs([x.e] + more.es, more.rest) else NoArgs
    else GotArgs([x.e], x.rest)
  }

  function ReadPrimary(ts: seq<Token>): (r: Reading)
    ensures r.Got? ==> |r.rest| < |ts|
    decreases |ts|, 9
  {
    if ts == [] then NoParse
    else match ts[0]
      case Word(n) => Got(Ident(n), ts[1..])
      case Literal(t) => Got(Lit(t), ts[1..])
      case LParen =>
        var x := ReadCond(ts[1..]);
        if x.Got? && x.rest != [] && x.rest[0].RParen? then Got(x.e, x.rest[1..]) else NoParse
      case _ => NoParse
  }

  /** The whole text as one expression. */
  function Read(ts: seq<Token>): Opt<Expr> {
    var r := ReadCond(ts);
    if r.Got? && r.rest == [] then Some(r.e) else None
  }
}
