/**
 Reading back what the back end prints. Every printed expression parses; it parses
 to the printed tree exactly when no right operand is an unbracketed operator of
 the same level and no condition is an unbracketed conditional.
 */
module ExprRoundTrip {
  import opened ExprSyntax

  /** The printed text shows the tree's own grouping everywhere. */
  predicate Faithful(e: Expr)
    decreases e
  {
    match e
    case Bin(op, l, r) => Prec(r) != BinPrec(op) && Faithful(l) && Faithful(r)
    case Cond(c, a, b) => !c.Cond? && Faithful(c) && Faithful(a) && Faithful(b)
    case Un(_, x) => Faithful(x)
    case Call(f, args) => Faithful(f) && forall x :: x in args ==> Faithful(x)
    case Index(x, i) => Faithful(x) && Faithful(i)
    case Member(x, _, _) => Faithful(x)
    case Bracket(x) => Faithful(x)
    case _ => true
  }

  /** Brackets weigh less than any other node, so that wrapping an operand is no growth. */
  function Weight(e: Expr): (w: nat)
    ensures w >= 1
    decreases e
  {
    match e
    case Bin(_, l, r) => 2 + Weight(l) + Weight(r)
    case Cond(c, a, b) => 2 + Weight(c) + Weight(a) + Weight(b)
    case Un(_, x) => 2 + Weight(x)
    case Call(f, args) => 2 + Weight(f) + WeightAll(args)
    case Index(x, i) => 2 + Weight(x) + Weight(i)
    case Member(x, _, _) => 2 + Weight(x)
    case Bracket(x) => 1 + Weight(x)
    case _ => 1
  }

  function WeightAll(es: seq<Expr>): nat
    decreases es
  {
    if es == [] then 0 else 1 + Weight(es[0]) + WeightAll(es[1..])
  }

  function WrapE(e: Expr, p: nat): (w: Expr)
    ensures Weight(w) <= Weight(e) + 1
  {
    if Prec(e) < p then Bracket(e) else e
  }

  lemma {:induction false} WrappedIsPrint(e: Expr, p: nat)
    requires p <= 20
    ensures Wrapped(e, p) == Print(WrapE(e, p)) && Erase(WrapE(e, p)) == Erase(e)
    ensures Prec(WrapE(e, p)) >= p && (Faithful(e) ==> Faithful(WrapE(e, p)))
  {
  }

  lemma {:induction false} StripErase(e: Expr)
    ensures Erase(StripBrackets(e)) == Erase(e) && Weight(StripBrackets(e)) <= Weight(e)
    ensures Faithful(e) ==> Faithful(StripBrackets(e))
    decreases e
  {
    if e.Bracket? { StripErase(e.e); }
  }

  // ----- What may follow -----

  predicate PostfixAt(ts: seq<Token>) {
    ts != [] && (ts[0].LParen? || ts[0].LBracket? || ts[0].Dot? || ts[0].Arrow?)
  }

  /** Nothing at the head of ts goes on with a production inside production p. */
  predicate Stops(p: nat, ts: seq<Token>) {
    !PostfixAt(ts) && forall q :: p < q <= 15 ==> BinAt(q, ts).None?
  }

  predicate Ends(ts: seq<Token>) { Stops(4, ts) && (ts != [] ==> !ts[0].Quest?) }

  lemma {:induction false} DelimiterEnds(ts: seq<Token>)
    requires ts != [] && (ts[0].RParen? || ts[0].RBracket? || ts[0].Comma? || ts[0].Colon?)
    ensures Ends(ts)
  {
  }

  lemma {:induction false} BinLoopStops(p: nat, e: Expr, ts: seq<Token>)
    requires 5 <= p <= 15 && BinAt(p, ts).None?
    ensures BinLoop(p, e, ts) == Got(e, ts)
  {
  }

  lemma {:induction false} PostLoopStops(e: Expr, ts: seq<Token>)
    requires !PostfixAt(ts)
    ensures PostLoop(e, ts) == Got(e, ts)
  {
  }

  lemma {:induction false} FirstToken(e: Expr)
    ensures !Print(e)[0].RParen? && (Prec(e) >= 17 ==> !Print(e)[0].Op?)
    decreases e
  {
    match e
    case Bin(op, l, _) => FirstToken(l);
    case Cond(c, _, _) => FirstToken(c);
    case Call(f, _) => FirstToken(f);
    case Index(x, _) => FirstToken(x);
    case Member(x, _, _) => FirstToken(x);
    case _ =>
  }

  /** The printer's table puts every operator in the production that has its symbol, and
      no symbol in two. */
  lemma {:induction false} BinSymRead(op: BinOp, ts: seq<Token>)
    requires ts != [] && ts[0] == Op(BinSym(op))
    ensures BinAt(BinPrec(op), ts) == Some(op) && Stops(BinPrec(op), ts)
  {
  }

  lemma BracketPrint(x: Expr)
    ensures Print(Bracket(x)) == [LParen] + Print(if x.Bracket? then x.e else x) + [RParen]
    ensures Erase(Bracket(x)) == Erase(if x.Bracket? then x.e else x)
    ensures Faithful(Bracket(x)) ==> Faithful(if x.Bracket? then x.e else x)
  {
  }

  lemma {:induction false} WordPrint(e: Expr)
    requires e.Ident? || e.Lit?
    ensures Print(e) == [if e.Ident? then Word(e.name) else Literal(e.text)]
  {
  }

  // ----- Faithful trees read back -----

  lemma {:induction false} PrimaryReads(e: Expr, rest: seq<Token>)
    requires Faithful(e) && Prec(e) == 20
    ensures ReadPrimary(Print(e) + rest) == Got(Erase(e), rest)
    decreases Weight(e), 9
  {
    hide ReadCond, Print;
    match e
    case Bracket(x) =>
      var y := if x.Bracket? then x.e else x;
      var after := [RParen] + rest;
      assert Weight(y) < Weight(e);
      CondReads(y, after);
      BracketPrint(x);
      assert Print(e) + rest == [LParen] + (Print(y) + after);
      assert (Print(e) + rest)[1..] == Print(y) + after;
      assert after[1..] == rest;
    case Ident(n) =>
      WordPrint(e);
      assert ([Word(n)] + rest)[1..] == rest;
    case Lit(t) =>
      WordPrint(e);
      assert ([Literal(t)] + rest)[1..] == rest;
  }

  lemma {:induction false} ArgsRead(es: seq<Expr>, rest: seq<Token>)
    requires es != [] && (forall x :: x in es ==> Faithful(x)) && rest != [] && rest[0].RParen?
    ensures ReadArgs(PrintAll(es) + rest) == GotArgs(EraseAll(es), rest)
    decreases WeightAll(es), 31
  {
    hide ReadCond, Print, Erase, Faithful, Weight, Stops;
    assert Ends(rest) by { DelimiterEnds(rest); }
    if |es| == 1 {
      CondReads(es[0], rest);
      assert PrintAll(es) + rest == Print(es[0]) + rest;
      assert EraseAll(es) == [Erase(es[0])];
    } else {
      var after := [Comma] + (PrintAll(es[1..]) + rest);
      DelimiterEnds(after);
      CondReads(es[0], after);
      ArgsRead(es[1..], rest);
      assert PrintAll(es) + rest == Print(es[0]) + after;
      assert after[1..] == PrintAll(es[1..]) + rest;
    }
  }

  lemma {:induction false} CallStep(acc: Expr, ts: seq<Token>, args: Args)
    requires |ts| > 1 && ts[0].LParen?
    requires args == (if ts[1].RParen? then GotArgs([], ts[1..]) else ReadArgs(ts[1..]))
    requires args.GotArgs? && args.rest != [] && args.rest[0].RParen?
    ensures PostLoop(acc, ts) == PostLoop(Call(acc, args.es), args.rest[1..])
  {
    hide ReadCond, ReadArgs;
  }

  lemma {:induction false} CallReads(acc: Expr, args: seq<Expr>, rest: seq<Token>)
    requires forall x :: x in args ==> Faithful(x)
    ensures var inner := if |args| == 1 then Print(StripBrackets(args[0])) else PrintAll(args);
            PostLoop(acc, [LParen] + inner + [RParen] + rest) == PostLoop(Call(acc, EraseAll(args)), rest)
    decreases WeightAll(args), 32
  {
    hide ReadCond, ReadArgs, PostLoop, Print, Faithful, Erase, StripBrackets, Weight;
    var after := [RParen] + rest;
    assert after[1..] == rest;
    if args == [] {
      var ts := [LParen] + [] + [RParen] + rest;
      assert ts[1..] == after;
      CallStep(acc, ts, GotArgs([], after));
    } else if |args| == 1 {
      var x := StripBrackets(args[0]);
      StripErase(args[0]);
      var ts := [LParen] + Print(x) + [RParen] + rest;
      assert ts[1..] == Print(x) + after;
      FirstToken(x);
      assert PrintAll([x]) == Print(x);
      assert args[1..] == [] && WeightAll([]) == 0 && [x][1..] == [];
      assert WeightAll([x]) == 1 + Weight(x) <= WeightAll(args);
      ArgsRead([x], after);
      assert EraseAll([x]) == EraseAll(args);
      CallStep(acc, ts, GotArgs(EraseAll(args), after));
    } else {
      var ts := [LParen] + PrintAll(args) + [RParen] + rest;
      assert ts[1..] == PrintAll(args) + after;
      FirstToken(args[0]);
      assert PrintAll(args)[0] == Print(args[0])[0];
      ArgsRead(args, after);
      CallStep(acc, ts, GotArgs(EraseAll(args), after));
    }
  }

  lemma {:induction false} PostfixReads(e: Expr, rest: seq<Token>)
    requires Faithful(e) && Prec(e) >= 17
    ensures ReadPostfix(Print(e) + rest) == PostLoop(Erase(e), rest)
    decreases Weight(e), 10
  {
    hide ReadPrimary, ReadCond, ReadArgs, PostLoop, Print, Erase;
    match e
    case Call(f, args) =>
      CalleeReads(f, args, rest);
    case Index(x, i) =>
      IndexReads(x, i, rest);
    case Member(x, w, n) =>
      MemberReads(x, w, n, rest);
    case Ident(_) => PrimaryReads(e, rest);
    case Lit(_) => PrimaryReads(e, rest);
    case Bracket(_) => PrimaryReads(e, rest);
  }

  lemma {:induction false} CalleeReads(f: Expr, args: seq<Expr>, rest: seq<Token>)
    requires Faithful(Call(f, args))
    ensures ReadPostfix(Print(Call(f, args)) + rest) == PostLoop(Erase(Call(f, args)), rest)
    decreases Weight(Call(f, args)), 9
  {
    hide ReadPostfix, PostLoop, PrintAll, StripBrackets, EraseAll, Wrapped;
    WrappedIsPrint(f, 17);
    var inner := if |args| == 1 then Print(StripBrackets(args[0])) else PrintAll(args);
    var after := [LParen] + inner + [RParen] + rest;
    PostfixReads(WrapE(f, 17), after);
    CallReads(Erase(f), args, rest);
    assert Print(Call(f, args)) + rest == Print(WrapE(f, 17)) + after;
  }

  lemma {:induction false} IndexStep(acc: Expr, ts: seq<Token>, i: Reading)
    requires ts != [] && ts[0].LBracket?
    requires ReadCond(ts[1..]) == i && i.Got? && i.rest != [] && i.rest[0].RBracket?
    ensures PostLoop(acc, ts) == PostLoop(Expr.Index(acc, i.e), i.rest[1..])
  {
    hide ReadCond, ReadArgs;
  }

  lemma {:induction false} IndexPrint(x: Expr, i: Expr, rest: seq<Token>)
    ensures Print(Index(x, i)) + rest == Print(WrapE(x, 17)) + ([LBracket] + (Print(i) + ([RBracket] + rest)))
  {
    WrappedIsPrint(x, 17);
    assert Print(Index(x, i)) == Print(WrapE(x, 17)) + [LBracket] + Print(i) + [RBracket];
  }

  lemma {:induction false} IndexReads(x: Expr, i: Expr, rest: seq<Token>)
    requires Faithful(Index(x, i))
    ensures ReadPostfix(Print(Index(x, i)) + rest) == PostLoop(Erase(Index(x, i)), rest)
    decreases Weight(Index(x, i)), 9
  {
    hide ReadPostfix, ReadCond, PostLoop, Wrapped, Print;
    WrappedIsPrint(x, 17);
    var close := [RBracket] + rest;
    var after := [LBracket] + (Print(i) + close);
    PostfixReads(WrapE(x, 17), after);
    CondReads(i, close);
    IndexPrint(x, i, rest);
    assert after[1..] == Print(i) + close;
    assert close[1..] == rest;
    IndexStep(Erase(x), after, Got(Erase(i), close));
  }

  lemma {:induction false} MemberReads(x: Expr, w: bool, n: string, rest: seq<Token>)
    requires Faithful(Member(x, w, n))
    ensures ReadPostfix(Print(Member(x, w, n)) + rest) == PostLoop(Erase(Member(x, w, n)), rest)
    decreases Weight(Member(x, w, n)), 9
  {
    hide ReadPostfix, ReadCond, ReadArgs, Wrapped;
    WrappedIsPrint(x, 17);
    var after := [if w then Arrow else Dot, Word(n)] + rest;
    PostfixReads(WrapE(x, 17), after);
    assert Print(Member(x, w, n)) + rest == Print(WrapE(x, 17)) + after;
    assert after[2..] == rest;
  }

  lemma {:induction false} UnaryReads(e: Expr, rest: seq<Token>)
    requires Faithful(e) && Prec(e) >= 16 && !PostfixAt(rest)
    ensures ReadUnary(Print(e) + rest) == Got(Erase(e), rest)
    decreases Weight(e), 11
  {
    hide ReadPostfix, PostLoop;
    if e.Un? {
      WrappedIsPrint(e.e, 16);
      UnaryReads(WrapE(e.e, 16), rest);
      assert (Print(e) + rest)[1..] == Print(WrapE(e.e, 16)) + rest;
      assert UnOpOf(UnSym(e.uop)) == Some(e.uop);
    } else {
      FirstToken(e);
      PostfixReads(e, rest);
      PostLoopStops(Erase(e), rest);
      assert (Print(e) + rest)[0] == Print(e)[0];
    }
  }

  lemma {:induction false} BinReads(e: Expr, p: nat, rest: seq<Token>)
    requires Faithful(e) && 5 <= p <= 15 && Prec(e) >= p && Stops(p, rest)
    ensures ReadBin(p, Print(e) + rest) == BinLoop(p, Erase(e), rest)
    decreases Weight(e), 28 - p, 0
  {
    hide BinLoop, Print;
    if Prec(e) == p {
      OperandsRead(e, rest);
    } else {
      TighterReads(e, p, rest);
    }
  }

  /** An expression that binds tighter than p is one operand of level p. */
  lemma {:induction false} TighterReads(e: Expr, p: nat, rest: seq<Token>)
    requires Faithful(e) && 5 <= p <= 15 && Prec(e) > p && Stops(p, rest)
    ensures ReadBin(p + 1, Print(e) + rest) == Got(Erase(e), rest)
    decreases Weight(e), 27 - p, 1
  {
    if p == 15 {
      UnaryReads(e, rest);
    } else {
      BinReads(e, p + 1, rest);
      BinLoopStops(p + 1, Erase(e), rest);
    }
  }

  lemma {:induction false} FaithfulOperands(e: Expr)
    requires e.Bin? && Faithful(e)
    ensures Faithful(e.l) && Faithful(e.r) && Prec(e.r) != BinPrec(e.op)
  {
  }

  lemma {:induction false} BinText(op: BinOp, l: Expr, r: Expr)
    ensures Print(Bin(op, l, r)) == Wrapped(l, BinPrec(op)) + [Op(BinSym(op))] + Wrapped(r, BinPrec(op))
  {
    hide Wrapped, BinPrec, BinSym;
  }

  lemma {:induction false} LoopStep(p: nat, acc: Expr, ts: seq<Token>, op: BinOp, x: Expr, rest: seq<Token>)
    requires 5 <= p <= 15 && BinAt(p, ts) == Some(op) && ts != [] && ReadBin(p + 1, ts[1..]) == Got(x, rest)
    ensures BinLoop(p, acc, ts) == BinLoop(p, Bin(op, acc, x), rest)
  {
    hide ReadBin, BinAt;
  }

  lemma {:induction false} OperandsRead(e: Expr, rest: seq<Token>)
    requires e.Bin? && Faithful(e) && Stops(Prec(e), rest)
    ensures ReadBin(Prec(e), Print(e) + rest) == BinLoop(Prec(e), Erase(e), rest)
    decreases Weight(e), 0
  {
    hide ReadBin, BinLoop, Wrapped, Faithful, Print, BinAt, BinSym, Stops;
    FaithfulOperands(e);
    var p := BinPrec(e.op);
    WrappedIsPrint(e.l, p);
    WrappedIsPrint(e.r, p);
    BinText(e.op, e.l, e.r);
    var l, r := WrapE(e.l, p), WrapE(e.r, p);
    var after := [Op(BinSym(e.op))] + (Print(r) + rest);
    BinSymRead(e.op, after);
    BinReads(l, p, after);
    TighterReads(r, p, rest);
    assert Print(e) + rest == Print(l) + after;
    assert after[1..] == Print(r) + rest;
    LoopStep(p, Erase(l), after, e.op, Erase(r), rest);
  }

  lemma {:induction false} CondReads(e: Expr, rest: seq<Token>)
    requires Faithful(e) && Ends(rest)
    ensures ReadCond(Print(e) + rest) == Got(Erase(e), rest)
    decreases Weight(e), 30
  {
    hide ReadBin, BinLoop, Print;
    if e.Cond? {
      ChoiceReads(e, rest);
    } else {
      BinReads(e, 5, rest);
      BinLoopStops(5, Erase(e), rest);
    }
  }

  lemma {:induction false} CondStep(ts: seq<Token>, c: Reading, a: Reading, b: Reading)
    requires ReadBin(5, ts) == c && c.Got? && c.rest != [] && c.rest[0].Quest?
    requires ReadCond(c.rest[1..]) == a && a.Got? && a.rest != [] && a.rest[0].Colon?
    requires ReadCond(a.rest[1..]) == b && b.Got?
    ensures ReadCond(ts) == Got(Cond(c.e, a.e, b.e), b.rest)
  {
    hide ReadBin;
  }

  lemma {:induction false} CondText(c: Expr, a: Expr, b: Expr)
    ensures Print(Cond(c, a, b)) == Wrapped(c, 4) + [Quest] + Wrapped(a, 4) + [Colon] + Wrapped(b, 4)
  {
    hide Wrapped;
  }

  lemma {:induction false} BareOperand(e: Expr, p: nat)
    requires p <= Prec(e)
    ensures Wrapped(e, p) == Print(e)
  {
    hide Print;
  }

  lemma {:induction false} ChoicePrint(c: Expr, a: Expr, b: Expr, rest: seq<Token>)
    requires Prec(c) >= 5
    ensures Print(Cond(c, a, b)) + rest == Print(c) + ([Quest] + (Print(a) + ([Colon] + (Print(b) + rest))))
  {
    assert Prec(a) >= 4 && Prec(b) >= 4;
    hide Print, Wrapped, Prec;
    BareOperand(c, 4);
    BareOperand(a, 4);
    BareOperand(b, 4);
    CondText(c, a, b);
  }

  lemma {:induction false} ChoiceReads(e: Expr, rest: seq<Token>)
    requires e.Cond? && Faithful(e) && Ends(rest)
    ensures ReadCond(Print(e) + rest) == Got(Erase(e), rest)
    decreases Weight(e), 29
  {
    hide ReadBin, BinLoop, ReadCond, Print;
    var tail := [Colon] + (Print(e.b) + rest);
    var after := [Quest] + (Print(e.a) + tail);
    ChoicePrint(e.c, e.a, e.b, rest);
    BinReads(e.c, 5, after);
    BinLoopStops(5, Erase(e.c), after);
    CondReads(e.a, tail);
    CondReads(e.b, rest);
    assert after[1..] == Print(e.a) + tail;
    assert tail[1..] == Print(e.b) + rest;
    CondStep(Print(e) + rest, Got(Erase(e.c), after), Got(Erase(e.a), tail), Got(Erase(e.b), rest));
  }

  /** Printing and then reading a faithful tree gives the tree without its brackets. */
  lemma {:induction false} FaithfulReadsBack(e: Expr)
    requires Faithful(e)
    ensures Read(Print(e)) == Some(Erase(e))
  {
    CondReads(e, []);
    assert Print(e) + [] == Print(e);
  }
}
