/**
 The printing methods for statements: tokens go to the stream m4code between line breaks
 and indentation. Every method restores the indentation it found, and no scope is closed
 that was not opened.
 */
module StmtPrinter {
  import opened StmtSyntax

  datatype Item = Tok(t: Token) | NewLine | Spaces(n: int)

  datatype ContextType = CSTMT | BLOCK | ELSE | SWITCH

  function Tokens(items: seq<Item>): seq<Token> {
    if items == [] then []
    else
      var x := items[|items| - 1];
      Tokens(items[..|items| - 1]) + (if x.Tok? then [x.t] else [])
  }

  lemma {:induction false} TokensSnoc(items: seq<Item>, x: Item)
    ensures Tokens(items + [x]) == Tokens(items) + (if x.Tok? then [x.t] else [])
  {
    assert (items + [x])[..|items|] == items;
  }

  /** An if weighs more than the block put around one of its branches. */
  function Weight(s: Stmt): nat
    decreases s, 1
  {
    match s
    case Simple(_) => 1
    case Compound(ss) => 1 + WeightAll(ss)
    case If(_, a, b) => 4 + Weight(a) + (match b case None => 0 case Some(e) => 2 + Weight(e))
    case While(_, b) => 1 + Weight(b)
    case For(_, b) => 1 + Weight(b)
    case DoWhile(b, _) => 1 + Weight(b)
    case Label(_, b) => 1 + Weight(b)
  }

  function WeightAll(ss: seq<Stmt>): nat
    decreases ss, 0
  {
    if ss == [] then 0 else 1 + Weight(ss[0]) + WeightAll(ss[1..])
  }

  lemma {:induction false} WeightOne(s: Stmt)
    ensures Weight(Compound([s])) == 2 + Weight(s)
  {
    hide Weight;
    assert WeightAll([s]) == 1 + Weight(s) + WeightAll([]) by { assert [s][1..] == []; }
    BlockWeight([s]);
  }

  lemma {:induction false} BlockWeight(ss: seq<Stmt>)
    ensures Weight(Compound(ss)) == 1 + WeightAll(ss)
  {
  }

  lemma {:induction false} ElementWeight(ss: seq<Stmt>, i: nat)
    requires i < |ss|
    ensures Weight(ss[i]) < WeightAll(ss)
    decreases ss
  {
    hide Weight;
    if i > 0 { ElementWeight(ss[1..], i - 1); }
  }

  lemma {:induction false} PrintFrom(java: bool, ss: seq<Stmt>, i: nat)
    requires i < |ss|
    ensures PrintAll(java, ss[i..]) == Print(java, ss[i]) + PrintAll(java, ss[i + 1..])
    ensures PrintAll(java, ss[|ss|..]) == []
  {
    hide Print;
    assert ss[i..][0] == ss[i] && ss[i..][1..] == ss[i + 1..];
  }

  class CGBackEnd {
    const java: bool
    var m4code: seq<Item>
    var indent: int
    var last: ContextType

    constructor (java: bool)
      ensures this.java == java && Text() == [] && indent == 0
    {
      this.java := java;
      m4code := [];
      indent := 0;
      last := CSTMT;
    }

    /** The tokens printed so far. */
    ghost function Text(): seq<Token>
      reads this
    {
      Tokens(m4code)
    }

    method OpenScope()
      modifies this`indent
      ensures indent == old(indent) + 2
    {
      indent := indent + 2;
    }

    method CloseScope()
      requires indent >= 2
      modifies this`indent
      ensures indent == old(indent) - 2
    {
      indent := indent - 2;
    }

    method IND()
      requires indent >= 0
      modifies this`m4code
      ensures Text() == old(Text())
    {
      TokensSnoc(m4code, Spaces(indent));
      m4code := m4code + [Spaces(indent)];
    }

    method GenNewLine()
      modifies this`m4code
      ensures Text() == old(Text())
    {
      TokensSnoc(m4code, NewLine);
      m4code := m4code + [NewLine];
    }

    method Out(t: Token)
      modifies this`m4code
      ensures Text() == old(Text()) + [t]
    {
      TokensSnoc(m4code, Tok(t));
      m4code := m4code + [Tok(t)];
    }

    method OpenBlock()
      modifies this`m4code, this`indent
      ensures Text() == old(Text()) + [LBrace] && indent == old(indent) + 2
    {
      Out(LBrace);
      OpenScope();
    }

    method CloseBlock()
      requires indent >= 2
      modifies this`m4code, this`indent
      ensures Text() == old(Text()) + [RBrace] && indent == old(indent) - 2
    {
      CloseScope();
      IND();
      Out(RBrace);
    }

    method GenCode(stmt: Stmt)
      requires indent >= 0
      modifies this`m4code, this`indent, this`last
      ensures Text() == old(Text()) + Print(java, stmt) && indent == old(indent)
      decreases Weight(stmt), 3
    {
      CaseText(java, stmt);
      hide Print, Tokens;
      match stmt
      case Simple(text) =>
        if java { GenNewLine(); }
        last := CSTMT;
        IND();
        Out(StmtSyntax.Text(text));
      case Label(id, body) =>
        Out(LabelColon(id));
        GenNewLine();
        last := CSTMT;
        GenCode(body);
      case If(_, _, _) =>
        GenIfStmt(stmt);
      case Compound(stms) =>
        GenCompoundStmt(stms);
      case While(cond, body) =>
        if java { GenNewLine(); }
        IND();
        Out(KwWhile(cond));
        last := BLOCK;
        GenStmt(body, false);
      case For(head, body) =>
        if java { GenNewLine(); }
        IND();
        Out(KwFor(head));
        last := BLOCK;
        GenStmt(body, false);
      case DoWhile(body, cond) =>
        IND();
        Out(KwDo);
        last := BLOCK;
        GenStmt(body, false);
        GenNewLine();
        IND();
        Out(DoEnd(cond));
        last := CSTMT;
    }

    /** A controlled statement; sw: the caller has opened a scope for it. */
    method GenStmt(stmt: Stmt, sw: bool)
      requires indent >= 0 && (sw && stmt.Compound? ==> indent >= 2)
      modifies this`m4code, this`indent, this`last
      ensures Text() == old(Text()) + Print(java, stmt) && indent == old(indent)
      decreases Weight(stmt), 4
    {
      hide Print, Tokens;
      if stmt.Compound? {
        if sw { CloseScope(); }
        GenCode(stmt);
        if sw { OpenScope(); }
      } else {
        if !sw { OpenScope(); }
        if !java && last != ELSE && last != SWITCH { GenNewLine(); }
        GenCode(stmt);
        if !sw { CloseScope(); }
      }
    }

    method GenIfStmt(rc: Stmt)
      requires rc.If? && indent >= 0
      modifies this`m4code, this`indent, this`last
      ensures Text() == old(Text()) + Print(java, rc) && indent == old(indent)
      decreases Weight(rc), 2
    {
      IfText(java, rc.cond, rc.alt1, rc.alt2);
      hide Print, PrintBranch, Tokens, Weight;
      if last == ELSE {
        last := BLOCK;
      } else {
        if java { GenNewLine(); }
        IND();
        last := BLOCK;
      }
      Out(KwIf(rc.cond));
      last := BLOCK;
      GenFirstBranch(rc.alt1, rc);
      assert Text() == old(Text()) + ([KwIf(rc.cond)] + PrintBranch(java, rc.alt1));
      if rc.alt2.Some? {
        GenElse(rc.alt2.value, rc);
      }
      last := CSTMT;
    }

    method GenElse(alt2: Stmt, ghost rc: Stmt)
      requires rc.If? && rc.alt2 == Some(alt2) && indent >= 0
      modifies this`m4code, this`indent, this`last
      ensures Text() == old(Text()) + ([KwElse] + PrintBranch(java, alt2)) && indent == old(indent)
      decreases Weight(rc), 1
    {
      hide PrintBranch, Tokens, Weight;
      GenNewLine();
      IND();
      Out(KwElse);
      GenElseBranch(alt2, rc);
    }

    method GenFirstBranch(alt1: Stmt, ghost rc: Stmt)
      requires rc.If? && rc.alt1 == alt1 && indent >= 0
      modifies this`m4code, this`indent, this`last
      ensures Text() == old(Text()) + PrintBranch(java, alt1) && indent == old(indent)
      decreases Weight(rc), 0
    {
      WeightOne(alt1);
      assert Weight(Compound([alt1])) < Weight(rc) && Weight(alt1) < Weight(rc);
      hide Print, Tokens, Weight;
      if alt1.If? && alt1.alt2.None? {
        var cs := Compound([alt1]);
        GenStmt(cs, false);
        BracedText(java, alt1);
      } else {
        GenStmt(alt1, false);
      }
    }

    method GenElseBranch(alt2: Stmt, ghost rc: Stmt)
      requires rc.If? && rc.alt2 == Some(alt2) && indent >= 0
      modifies this`m4code, this`indent, this`last
      ensures Text() == old(Text()) + PrintBranch(java, alt2) && indent == old(indent)
      decreases Weight(rc), 0
    {
      WeightOne(alt2);
      assert Weight(Compound([alt2])) < Weight(rc) && Weight(alt2) < Weight(rc);
      hide Print, Tokens, Weight;
      if alt2.If? {
        last := ELSE;
        if alt2.alt2.None? {
          var cs := Compound([alt2]);
          last := BLOCK;
          OpenScope();
          GenStmt(cs, true);
          CloseScope();
          BracedText(java, alt2);
        } else {
          GenStmt(alt2, true);
        }
      } else {
        last := BLOCK;
        GenStmt(alt2, false);
      }
    }

    method GenCompoundStmt(stms: seq<Stmt>)
      requires indent >= 0
      modifies this`m4code, this`indent, this`last
      ensures Text() == old(Text()) + Print(java, Compound(stms)) && indent == old(indent)
      decreases Weight(Compound(stms)), 2
    {
      BlockWeight(stms);
      BlockText(java, stms);
      hide Print, Tokens, Weight;
      if |stms| == 0 {
        Out(LBrace);
        Out(RBrace);
      } else if |stms| == 1 {
        ElementWeight(stms, 0);
        if stms[0].Compound? {
          GenCode(stms[0]);
        } else {
          if !java && last != BLOCK { IND(); }
          OpenBlock();
          if !java { GenNewLine(); }
          GenCode(stms[0]);
          GenNewLine();
          CloseBlock();
        }
      } else {
        if !java && last != BLOCK { IND(); }
        OpenBlock();
        if !java { GenNewLine(); }
        last := CSTMT;
        GenInside(stms);
        if java { GenNewLine(); }
        CloseBlock();
      }
    }

    /** The statements of a longer block; in C++ a leading block is merged. */
    method GenInside(stms: seq<Stmt>)
      requires indent >= 0 && |stms| > 1
      modifies this`m4code, this`indent, this`last
      ensures Text() == old(Text()) + PrintInside(java, stms) && indent == old(indent)
      decreases WeightAll(stms), 1
    {
      hide Print, Tokens, Weight;
      var rest := stms;
      if !java && stms[0].Compound? {
        ElementWeight(stms, 0);
        BlockWeight(stms[0].stms);
        GenAll(stms[0].stms);
        TailWeight(stms);
        rest := stms[1..];
        GenNewLine();
        IND();
      }
      GenAll(rest);
    }

    method GenAll(stms: seq<Stmt>)
      requires indent >= 0
      modifies this`m4code, this`indent, this`last
      ensures Text() == old(Text()) + PrintAll(java, stms) && indent == old(indent)
      decreases WeightAll(stms), 0
    {
      hide Print, Tokens, Weight, WeightAll, PrintAll;
      ghost var before, all := Text(), PrintAll(java, stms);
      assert stms[0..] == stms;
      for i := 0 to |stms|
        invariant indent == old(indent)
        invariant Text() + PrintAll(java, stms[i..]) == before + all
      {
        if java && stms[i].Compound? {
          GenNewLine();
          IND();
        }
        ElementWeight(stms, i);
        PrintFrom(java, stms, i);
        GenCode(stms[i]);
        if !java { GenNewLine(); }
      }
      NoneLeft(java, stms);
    }
  }

  lemma {:induction false} CaseText(java: bool, s: Stmt)
    ensures s.Simple? ==> Print(java, s) == [Text(s.text)]
    ensures s.Label? ==> Print(java, s) == [LabelColon(s.id)] + Print(java, s.stmt)
    ensures s.While? ==> Print(java, s) == [KwWhile(s.cond)] + Print(java, s.body)
    ensures s.For? ==> Print(java, s) == [KwFor(s.head)] + Print(java, s.body)
    ensures s.DoWhile? ==> Print(java, s) == [KwDo] + Print(java, s.body) + [DoEnd(s.cond)]
  {
    hide PrintInside, PrintBranch;
  }

  lemma {:induction false} NoneLeft(java: bool, ss: seq<Stmt>)
    ensures PrintAll(java, ss[|ss|..]) == []
  {
  }

  lemma {:induction false} TailWeight(ss: seq<Stmt>)
    requires ss != []
    ensures WeightAll(ss[1..]) < WeightAll(ss)
  {
    hide Weight;
  }

  lemma {:induction false} IfText(java: bool, c: string, a: Stmt, b: Opt<Stmt>)
    ensures Print(java, If(c, a, b))
         == ([KwIf(c)] + PrintBranch(java, a)) + (if b.None? then [] else ([KwElse] + PrintBranch(java, b.value)))
  {
    hide PrintBranch;
  }

  lemma {:induction false} BracedText(java: bool, s: Stmt)
    requires BareIf(s)
    ensures Print(java, Compound([s])) == PrintBranch(java, s)
  {
    assert PrintAll(java, [s]) == Print(java, s) + PrintAll(java, []) by { assert [s][1..] == []; }
    assert PrintInside(java, [s]) == Print(java, s);
  }

  lemma {:induction false} BlockText(java: bool, ss: seq<Stmt>)
    ensures Print(java, Compound(ss))
         == (if |ss| == 1 && ss[0].Compound? then Print(java, ss[0]) else [LBrace] + PrintInside(java, ss) + [RBrace])
    ensures ss == [] ==> PrintInside(java, ss) == []
    ensures |ss| == 1 ==> PrintInside(java, ss) == Print(java, ss[0])
  {
    if |ss| == 1 {
      assert ss[1..] == [] && PrintAll(java, []) == [];
      assert PrintAll(java, ss) == Print(java, ss[0]) + PrintAll(java, ss[1..]);
    }
  }
}
