/**
 The printing methods themselves: they append to the stream m4code, bracket operands
 of a lower level in place, and strip brackets with a loop.
 */
module ExprPrinter {
  import opened ExprSyntax

  lemma {:induction false} PrintAllFrom(s: seq<Expr>, i: nat)
    requires i < |s|
    ensures PrintAll(s[|s|..]) == []
    ensures PrintAll(s[i..]) == Print(s[i]) + (if i + 1 < |s| then [Comma] + PrintAll(s[i + 1..]) else [])
  {
    assert s[i..][1..] == s[i + 1..];
  }

  lemma {:induction false} CaseText(e: Expr)
    ensures match e
      case Ident(n) => Print(e) == [Word(n)]
      case Lit(t) => Print(e) == [Literal(t)]
      case Bin(op, l, r) => Print(e) == Wrapped(l, BinPrec(op)) + [Op(BinSym(op))] + Wrapped(r, BinPrec(op))
      case Cond(c, a, b) => Print(e) == Wrapped(c, 4) + [Quest] + Wrapped(a, 4) + [Colon] + Wrapped(b, 4)
      case Un(op, x) => Print(e) == [Op(UnSym(op))] + Wrapped(x, 16)
      case Call(f, args) =>
        Print(e) == Wrapped(f, 17)
                    + ([LParen] + (if |args| == 1 then Print(StripBrackets(args[0])) else PrintAll(args)) + [RParen])
      case Index(x, i) => Print(e) == Wrapped(x, 17) + [LBracket] + Print(i) + [RBracket]
      case Member(x, w, n) => Print(e) == Wrapped(x, 17) + [if w then Arrow else Dot, Word(n)]
      case Bracket(x) => Print(e) == [LParen] + (if x.Bracket? then Print(x.e) else Print(x)) + [RParen]
  {
    hide Wrapped, PrintAll, StripBrackets, BinSym, UnSym, BinPrec;
  }

  class CGBackEnd {
    var m4code: seq<Token>

    constructor ()
      ensures m4code == []
    {
      m4code := [];
    }

    method GenCode(rc: Expr)
      modifies this
      ensures m4code == old(m4code) + Print(rc)
      decreases rc, 3
    {
      CaseText(rc);
      hide Print, Wrapped, PrintAll, StripBrackets, BinSym, UnSym;
      match rc
      case Ident(name) => m4code := m4code + [Word(name)];
      case Lit(text) => m4code := m4code + [Literal(text)];
      case Bin(op, lhs, rhs) =>
        var prec := BinPrec(op);
        GenOperand(lhs, prec, rc);
        m4code := m4code + [Op(BinSym(op))];
        GenOperand(rhs, prec, rc);
      case Cond(_, _, _) =>
        GenConditional(rc);
      case Un(op, arg) =>
        m4code := m4code + [Op(UnSym(op))];
        GenOperand(arg, Prec(rc), rc);
      case Call(fct, exprs) =>
        GenOperand(fct, Prec(rc), rc);
        GenActuals(exprs, rc);
      case Index(arr, arg) =>
        GenOperand(arr, Prec(rc), rc);
        m4code := m4code + [LBracket];
        GenCode(arg);
        m4code := m4code + [RBracket];
      case Member(obj, arrow, name) =>
        GenOperand(obj, Prec(rc), rc);
        m4code := m4code + [if arrow then Arrow else Dot];
        m4code := m4code + [Word(name)];
      case Bracket(expr) =>
        m4code := m4code + [LParen];
        if expr.Bracket? {
          GenCode(expr.e);
        } else {
          GenCode(expr);
        }
        m4code := m4code + [RParen];
    }

    method GenConditional(rc: Expr)
      requires rc.Cond?
      modifies this
      ensures m4code == old(m4code) + Print(rc)
      decreases rc, 2
    {
      hide Wrapped;
      var prec := Prec(rc);
      GenOperand(rc.c, prec, rc);
      m4code := m4code + [Quest];
      GenOperand(rc.a, prec, rc);
      m4code := m4code + [Colon];
      GenOperand(rc.b, prec, rc);
      assert m4code == old(m4code)
          + (Wrapped(rc.c, prec) + [Quest] + Wrapped(rc.a, prec) + [Colon] + Wrapped(rc.b, prec));
    }

    /** The bracketing each case writes out for its operands. */
    method GenOperand(expr: Expr, prec: nat, ghost parent: Expr)
      requires expr < parent
      modifies this
      ensures m4code == old(m4code) + Wrapped(expr, prec)
      decreases parent, 1
    {
      hide Print;
      if Prec(expr) < prec {
        m4code := m4code + [LParen];
        GenCode(expr);
        m4code := m4code + [RParen];
      } else {
        GenCode(expr);
      }
    }

    /** A single actual parameter loses its brackets. */
    method GenActuals(exprs: seq<Expr>, ghost parent: Expr)
      requires forall x :: x in exprs ==> x < parent
      modifies this
      ensures m4code == old(m4code)
                        + ([LParen] + (if |exprs| == 1 then Print(StripBrackets(exprs[0])) else PrintAll(exprs))
                            + [RParen])
      decreases parent, 2
    {
      var es := exprs;
      if |exprs| == 1 {
        var e := exprs[0];
        assert e in exprs;
        while e.Bracket?
          invariant StripBrackets(e) == StripBrackets(exprs[0]) && e < parent
          decreases e
        {
          e := e.e;
        }
        es := [e];
      }
      m4code := m4code + [LParen];
      GenCodeSeq(es, parent);
      m4code := m4code + [RParen];
    }

    method GenCodeSeq(s: seq<Expr>, ghost parent: Expr)
      requires forall x :: x in s ==> x < parent
      modifies this
      ensures m4code == old(m4code) + PrintAll(s)
      decreases parent, 1
    {
      hide Print;
      ghost var before := m4code;
      assert s[0..] == s && PrintAll([]) == [];
      for i := 0 to |s|
        invariant m4code + (if 0 < i < |s| then [Comma] else []) + PrintAll(s[i..]) == before + PrintAll(s)
      {
        if i > 0 {
          m4code := m4code + [Comma];
        }
        assert s[i] in s;
        GenCode(s[i]);
        PrintAllFrom(s, i);
      }
    }
  }
}
