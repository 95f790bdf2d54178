/**
 What the printed text of an arbitrary expression means. Operators of one level are
 regrouped to the left and chained conditionals to the right; the regrouped tree
 prints the same tokens, so it is the tree a compiler sees. It is the printed tree
 exactly when nothing needed regrouping.
 */
module ExprRegrouping {
  import opened ExprSyntax
  import opened ExprRoundTrip

  /** Bin(op, l, r) grouped to the left along the right spine of r. */
  function Rot(op: BinOp, l: Expr, r: Expr): Expr
    decreases r
  {
    if r.Bin? && BinPrec(r.op) == BinPrec(op) then Bin(r.op, Rot(op, l, r.l), r.r) else Bin(op, l, r)
  }

  /** Cond(c, a, b) grouped to the right along the last branch of c. */
  function RotCond(c: Expr, a: Expr, b: Expr): Expr
    decreases c
  {
    if c.Cond? then Cond(c.c, c.a, RotCond(c.b, a, b)) else Cond(c, a, b)
  }

  function Canon(e: Expr): Expr
    decreases e
  {
    match e
    case Bin(op, l, r) => Rot(op, Canon(l), Canon(r))
    case Cond(c, a, b) => RotCond(Canon(c), Canon(a), Canon(b))
    case Un(op, x) => Un(op, Canon(x))
    case Call(f, args) => Call(Canon(f), CanonAll(args))
    case Index(x, i) => Index(Canon(x), Canon(i))
    case Member(x, w, n) => Member(Canon(x), w, n)
    case Bracket(x) => Bracket(Canon(x))
    case _ => e
  }

  function CanonAll(es: seq<Expr>): (rs: seq<Expr>)
    ensures |rs| == |es|
    decreases es
  {
    if es == [] then [] else [Canon(es[0])] + CanonAll(es[1..])
  }

  // ----- The regrouped tree prints the same -----

  /** Two operators of one level: the right-nested tree and its left rotation are one text. */
  lemma {:induction false} LeftRotationPrintsTheSame(op1: BinOp, a: Expr, op2: BinOp, b: Expr, c: Expr)
    requires BinPrec(op1) == BinPrec(op2)
    ensures Print(Bin(op1, a, Bin(op2, b, c))) == Print(Bin(op2, Bin(op1, a, b), c))
  {
    hide BinSym;
    var p := BinPrec(op1);
    var x, y, z := Wrapped(a, p), Wrapped(b, p), Wrapped(c, p);
    assert Wrapped(Bin(op2, b, c), p) == y + [Op(BinSym(op2))] + z;
    assert Wrapped(Bin(op1, a, b), p) == x + [Op(BinSym(op1))] + y;
    hide *;
    assert x + [Op(BinSym(op1))] + (y + [Op(BinSym(op2))] + z) == x + [Op(BinSym(op1))] + y + [Op(BinSym(op2))] + z;
  }

  lemma {:induction false} RotPrints(op: BinOp, l: Expr, r: Expr)
    ensures Print(Rot(op, l, r)) == Print(Bin(op, l, r)) && Prec(Rot(op, l, r)) == BinPrec(op)
    decreases r
  {
    hide BinSym, BinPrec;
    if r.Bin? && BinPrec(r.op) == BinPrec(op) {
      RotPrints(op, l, r.l);
      BinPrints(r.op, Rot(op, l, r.l), r.r, Bin(op, l, r.l), r.r);
      LeftRotationPrintsTheSame(op, l, r.op, r.l, r.r);
    }
  }

  lemma {:induction false} WrappedSame(e: Expr, e': Expr, p: nat)
    requires Print(e) == Print(e') && Prec(e) == Prec(e')
    ensures Wrapped(e, p) == Wrapped(e', p)
  {
    hide Print, Prec;
  }

  lemma {:induction false} BinPrints(op: BinOp, l: Expr, r: Expr, l': Expr, r': Expr)
    requires Print(l) == Print(l') && Prec(l) == Prec(l') && Print(r) == Print(r') && Prec(r) == Prec(r')
    ensures Print(Bin(op, l, r)) == Print(Bin(op, l', r'))
  {
    hide BinSym, BinPrec, Prec, Wrapped;
    WrappedSame(l, l', BinPrec(op));
    WrappedSame(r, r', BinPrec(op));
  }

  lemma {:induction false} CondPrints(c: Expr, a: Expr, b: Expr, c': Expr, a': Expr, b': Expr)
    requires Print(c) == Print(c') && Prec(c) == Prec(c') && Print(a) == Print(a') && Prec(a) == Prec(a')
    requires Print(b) == Print(b') && Prec(b) == Prec(b')
    ensures Print(Cond(c, a, b)) == Print(Cond(c', a', b'))
  {
    hide Print, Prec, Wrapped;
    WrappedSame(c, c', 4);
    WrappedSame(a, a', 4);
    WrappedSame(b, b', 4);
    CondText(c, a, b);
    CondText(c', a', b');
  }

  /** A conditional as the condition of another: the text groups to the right. */
  lemma {:induction false} ChainedConditionPrintsTheSame(c: Expr, a: Expr, b: Expr, x: Expr, y: Expr)
    ensures Print(Cond(Cond(c, a, b), x, y)) == Print(Cond(c, a, Cond(b, x, y)))
  {
    var tc, ta, tb, tx, ty := Wrapped(c, 4), Wrapped(a, 4), Wrapped(b, 4), Wrapped(x, 4), Wrapped(y, 4);
    assert Wrapped(Cond(c, a, b), 4) == tc + [Quest] + ta + [Colon] + tb;
    assert Wrapped(Cond(b, x, y), 4) == tb + [Quest] + tx + [Colon] + ty;
    hide *;
    assert tc + [Quest] + ta + [Colon] + tb + [Quest] + tx + [Colon] + ty
        == tc + [Quest] + ta + [Colon] + (tb + [Quest] + tx + [Colon] + ty);
  }

  lemma {:induction false} RotCondPrints(c: Expr, a: Expr, b: Expr)
    ensures Print(RotCond(c, a, b)) == Print(Cond(c, a, b)) && RotCond(c, a, b).Cond?
    decreases c
  {
    if c.Cond? {
      RotCondPrints(c.b, a, b);
      CondPrints(c.c, c.a, RotCond(c.b, a, b), c.c, c.a, Cond(c.b, a, b));
      ChainedConditionPrintsTheSame(c.c, c.a, c.b, a, b);
    }
  }

  lemma {:induction false} CanonPrints(e: Expr)
    ensures Print(Canon(e)) == Print(e) && Prec(Canon(e)) == Prec(e)
    decreases e, 0
  {
    hide Rot, RotCond, BinSym, BinPrec;
    match e
    case Bin(op, l, r) =>
      CanonPrints(l);
      CanonPrints(r);
      RotPrints(op, Canon(l), Canon(r));
      BinPrints(op, Canon(l), Canon(r), l, r);
    case Cond(c, a, b) =>
      CanonPrints(c);
      CanonPrints(a);
      CanonPrints(b);
      RotCondPrints(Canon(c), Canon(a), Canon(b));
      CondPrints(Canon(c), Canon(a), Canon(b), c, a, b);
    case Un(op, x) => CanonPrints(x);
    case Call(f, args) =>
      CanonPrints(f);
      CanonCallPrints(f, args);
    case Index(x, i) =>
      CanonPrints(x);
      CanonPrints(i);
    case Member(x, _, _) => CanonPrints(x);
    case Bracket(x) =>
      CanonPrints(x);
      BracketPrint(Canon(x));
      BracketPrint(x);
      if x.Bracket? { CanonPrints(x.e); }
      KeepsKind(x);
    case Ident(_) =>
    case Lit(_) =>
  }

  lemma {:induction false} KeepsKind(x: Expr)
    ensures Canon(x).Bracket? == x.Bracket?
    ensures x.Bracket? ==> Canon(x).e == Canon(x.e)
  {
  }

  lemma {:induction false} CanonCallPrints(f: Expr, args: seq<Expr>)
    requires Print(Canon(f)) == Print(f) && Prec(Canon(f)) == Prec(f)
    ensures Print(Call(Canon(f), CanonAll(args))) == Print(Call(f, args))
    decreases args, 2
  {
    hide Canon;
    if |args| == 1 {
      StripCanon(args[0]);
      CanonStrippedPrints(args[0]);
      assert CanonAll(args)[0] == Canon(args[0]);
    } else {
      CanonAllPrints(args);
    }
  }

  lemma {:induction false} StripCanon(x: Expr)
    ensures StripBrackets(Canon(x)) == Canon(StripBrackets(x))
    decreases x
  {
    hide Rot, RotCond, Print;
    KeepsKind(x);
    if x.Bracket? {
      StripCanon(x.e);
    }
  }

  lemma {:induction false} CanonStrippedPrints(x: Expr)
    ensures Print(Canon(StripBrackets(x))) == Print(StripBrackets(x))
    decreases x, 1
  {
    hide Canon, Print;
    CanonPrints(StripBrackets(x));
  }

  lemma {:induction false} CanonAllPrints(es: seq<Expr>)
    ensures PrintAll(CanonAll(es)) == PrintAll(es)
    decreases es, 0
  {
    hide Canon, Print;
    if es != [] {
      CanonPrints(es[0]);
      CanonAllPrints(es[1..]);
      assert CanonAll(es)[1..] == CanonAll(es[1..]);
    }
  }

  // ----- The regrouped tree is faithful -----

  lemma {:induction false} FaithfulNode(op: BinOp, l: Expr, r: Expr)
    ensures Faithful(Bin(op, l, r)) <==> Prec(r) != BinPrec(op) && Faithful(l) && Faithful(r)
  {
    hide BinPrec;
  }

  lemma {:induction false} RotFaithful(op: BinOp, l: Expr, r: Expr)
    requires Faithful(l) && Faithful(r)
    ensures Faithful(Rot(op, l, r)) && Prec(Rot(op, l, r)) == BinPrec(op)
    decreases r
  {
    hide BinPrec, Faithful;
    if r.Bin? && BinPrec(r.op) == BinPrec(op) {
      FaithfulOperands(r);
      RotFaithful(op, l, r.l);
      FaithfulNode(r.op, Rot(op, l, r.l), r.r);
    } else {
      FaithfulNode(op, l, r);
      assert Prec(r) == BinPrec(op) ==> r.Bin? by { BinLevels(op); }
    }
  }

  lemma {:induction false} BinLevels(op: BinOp)
    ensures 5 <= BinPrec(op) <= 15
  {
  }

  lemma {:induction false} RotCondFaithful(c: Expr, a: Expr, b: Expr)
    requires Faithful(c) && Faithful(a) && Faithful(b)
    ensures Faithful(RotCond(c, a, b))
    decreases c
  {
    if c.Cond? { RotCondFaithful(c.b, a, b); }
  }

  lemma {:induction false} CanonFaithful(e: Expr)
    ensures Faithful(Canon(e))
    decreases e, 0
  {
    hide Rot, RotCond, BinPrec;
    match e
    case Bin(op, l, r) =>
      CanonFaithful(l);
      CanonFaithful(r);
      RotFaithful(op, Canon(l), Canon(r));
    case Cond(c, a, b) =>
      CanonFaithful(c);
      CanonFaithful(a);
      CanonFaithful(b);
      RotCondFaithful(Canon(c), Canon(a), Canon(b));
    case Un(_, x) => CanonFaithful(x);
    case Call(f, args) =>
      CanonFaithful(f);
      CanonAllFaithful(args);
    case Index(x, i) =>
      CanonFaithful(x);
      CanonFaithful(i);
    case Member(x, _, _) => CanonFaithful(x);
    case Bracket(x) => CanonFaithful(x);
    case Ident(_) =>
    case Lit(_) =>
  }

  lemma {:induction false} CanonAllFaithful(es: seq<Expr>)
    ensures forall x :: x in CanonAll(es) ==> Faithful(x)
    decreases es, 0
  {
    hide Canon, Faithful;
    if es != [] {
      CanonFaithful(es[0]);
      CanonAllFaithful(es[1..]);
    }
  }

  // ----- Regrouping a tree that is not faithful changes it -----

  /** Nodes other than brackets. */
  function Size(e: Expr): nat
    decreases e
  {
    match e
    case Bin(_, l, r) => 1 + Size(l) + Size(r)
    case Cond(c, a, b) => 1 + Size(c) + Size(a) + Size(b)
    case Un(_, x) => 1 + Size(x)
    case Call(f, args) => 1 + Size(f) + SizeAll(args)
    case Index(x, i) => 1 + Size(x) + Size(i)
    case Member(x, _, _) => 1 + Size(x)
    case Bracket(x) => Size(x)
    case _ => 1
  }

  function SizeAll(es: seq<Expr>): nat
    decreases es
  {
    if es == [] then 0 else Size(es[0]) + SizeAll(es[1..])
  }

  /** How far operators lean left and conditionals lean right. */
  function Lean(e: Expr): nat
    decreases e
  {
    match e
    case Bin(_, l, r) => Size(l) + Lean(l) + Lean(r)
    case Cond(c, a, b) => Lean(c) + Lean(a) + Lean(b) + Size(b)
    case Un(_, x) => Lean(x)
    case Call(f, args) => Lean(f) + LeanAll(args)
    case Index(x, i) => Lean(x) + Lean(i)
    case Member(x, _, _) => Lean(x)
    case Bracket(x) => Lean(x)
    case _ => 0
  }

  function LeanAll(es: seq<Expr>): nat
    decreases es
  {
    if es == [] then 0 else Lean(es[0]) + LeanAll(es[1..])
  }

  lemma {:induction false} ErasedMeasure(e: Expr)
    ensures Size(Erase(e)) == Size(e) && Lean(Erase(e)) == Lean(e)
    decreases e, 0
  {
    match e
    case Bin(_, l, r) =>
      ErasedMeasure(l);
      ErasedMeasure(r);
    case Cond(c, a, b) =>
      ErasedMeasure(c);
      ErasedMeasure(a);
      ErasedMeasure(b);
    case Un(_, x) => ErasedMeasure(x);
    case Call(f, args) =>
      ErasedMeasure(f);
      ErasedMeasureAll(args);
    case Index(x, i) =>
      ErasedMeasure(x);
      ErasedMeasure(i);
    case Member(x, _, _) => ErasedMeasure(x);
    case Bracket(x) => ErasedMeasure(x);
    case Ident(_) =>
    case Lit(_) =>
  }

  lemma {:induction false} ErasedMeasureAll(es: seq<Expr>)
    ensures SizeAll(EraseAll(es)) == SizeAll(es) && LeanAll(EraseAll(es)) == LeanAll(es)
    decreases es, 0
  {
    hide Erase, Size, Lean;
    if es != [] {
      ErasedMeasure(es[0]);
      ErasedMeasureAll(es[1..]);
      assert EraseAll(es)[1..] == EraseAll(es[1..]);
    }
  }

  lemma {:induction false} RotLeans(op: BinOp, l: Expr, r: Expr)
    ensures Size(Rot(op, l, r)) == 1 + Size(l) + Size(r)
    ensures Lean(Rot(op, l, r)) >= Size(l) + Lean(l) + Lean(r)
    ensures Lean(Rot(op, l, r)) == Size(l) + Lean(l) + Lean(r) ==> Prec(r) != BinPrec(op)
    decreases r
  {
    hide BinPrec;
    if r.Bin? && BinPrec(r.op) == BinPrec(op) {
      RotLeans(op, l, r.l);
    } else {
      BinLevels(op);
    }
  }

  lemma {:induction false} RotCondLeans(c: Expr, a: Expr, b: Expr)
    ensures Size(RotCond(c, a, b)) == 1 + Size(c) + Size(a) + Size(b)
    ensures Lean(RotCond(c, a, b)) >= Lean(c) + Lean(a) + Lean(b) + Size(b)
    ensures Lean(RotCond(c, a, b)) == Lean(c) + Lean(a) + Lean(b) + Size(b) ==> !c.Cond?
    decreases c
  {
    if c.Cond? { RotCondLeans(c.b, a, b); }
  }

  lemma {:induction false} CanonLeans(e: Expr)
    ensures Size(Canon(e)) == Size(e) && Lean(Canon(e)) >= Lean(e)
    ensures Lean(Canon(e)) == Lean(e) ==> Faithful(e)
    decreases e, 0
  {
    hide Rot, RotCond, BinPrec;
    match e
    case Bin(op, l, r) =>
      CanonLeans(l);
      CanonLeans(r);
      RotLeans(op, Canon(l), Canon(r));
      KeepsPrec(r);
    case Cond(c, a, b) =>
      CanonLeans(c);
      CanonLeans(a);
      CanonLeans(b);
      RotCondLeans(Canon(c), Canon(a), Canon(b));
      KeepsPrec(c);
    case Un(_, x) => CanonLeans(x);
    case Call(f, args) =>
      CanonLeans(f);
      CanonAllLeans(args);
    case Index(x, i) =>
      CanonLeans(x);
      CanonLeans(i);
    case Member(x, _, _) => CanonLeans(x);
    case Bracket(x) => CanonLeans(x);
    case Ident(_) =>
    case Lit(_) =>
  }

  lemma {:induction false} KeepsPrec(e: Expr)
    ensures Prec(Canon(e)) == Prec(e) && Canon(e).Cond? == e.Cond?
  {
    CanonPrints(e);
    if e.Bin? { BinLevels(e.op); }
    if Canon(e).Bin? { BinLevels(Canon(e).op); }
  }

  lemma {:induction false} CanonAllLeans(es: seq<Expr>)
    ensures SizeAll(CanonAll(es)) == SizeAll(es) && LeanAll(CanonAll(es)) >= LeanAll(es)
    ensures LeanAll(CanonAll(es)) == LeanAll(es) ==> forall x :: x in es ==> Faithful(x)
    decreases es, 0
  {
    hide Canon, Size, Lean, Faithful;
    if es != [] {
      CanonLeans(es[0]);
      CanonAllLeans(es[1..]);
      assert CanonAll(es)[1..] == CanonAll(es[1..]);
      assert forall x :: x in es ==> x == es[0] || x in es[1..];
    }
  }

  // ----- Main results -----

  /** Whatever the tree, its text is an expression, and it means the regrouped tree. */
  lemma {:induction false} PrintedMeansRegrouped(e: Expr)
    ensures Read(Print(e)) == Some(Erase(Canon(e)))
  {
    hide Read, Print, Erase, Canon;
    CanonPrints(e);
    CanonFaithful(e);
    FaithfulReadsBack(Canon(e));
  }

  /** The text means the tree it was printed from exactly when the tree is faithful. */
  lemma {:induction false} ReadsBackIffFaithful(e: Expr)
    ensures Read(Print(e)) == Some(Erase(e)) <==> Faithful(e)
  {
    hide Read, Print, Erase, Canon, Size, Lean, Faithful;
    PrintedMeansRegrouped(e);
    if Faithful(e) { FaithfulReadsBack(e); }
    if Erase(Canon(e)) == Erase(e) {
      ErasedMeasure(Canon(e));
      ErasedMeasure(e);
      CanonLeans(e);
    }
  }
}
