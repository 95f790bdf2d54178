/**
 What the printed text of a statement means. Braces may be dropped or merged, which
 changes nothing; the one danger is an else that a nearer if takes. The text means the
 printed tree exactly when no branch before an else can take it.
 */
module StmtReading {
  import opened StmtSyntax

  // ----- Which trees are safe -----

  /** The printed text ends in an if that could still take an else. */
  predicate Open(s: Stmt) {
    match s
    case If(_, _, None) => true
    case If(_, _, Some(b)) => !BareIf(b) && Open(b)
    case While(_, b) => Open(b)
    case For(_, b) => Open(b)
    case Label(_, b) => Open(b)
    case Simple(_) => false
    case Compound(_) => false
    case DoWhile(_, _) => false
  }

  /** Wherever there is an else, the branch before it is closed or gets braces. */
  predicate Faithful(s: Stmt)
    decreases s
  {
    match s
    case Simple(_) => true
    case Compound(ss) => forall x :: x in ss ==> Faithful(x)
    case If(_, a, None) => Faithful(a)
    case If(_, a, Some(b)) => Faithful(a) && Faithful(b) && (BareIf(a) || !Open(a))
    case While(_, b) => Faithful(b)
    case For(_, b) => Faithful(b)
    case DoWhile(b, _) => Faithful(b)
    case Label(_, b) => Faithful(b)
  }

  // ----- What the reader makes of the text -----

  /** A tree as read, where braces are explicit, that could still take an else. */
  predicate OpenTree(t: Stmt) {
    match t
    case If(_, _, None) => true
    case If(_, _, Some(b)) => OpenTree(b)
    case While(_, b) => OpenTree(b)
    case For(_, b) => OpenTree(b)
    case Label(_, b) => OpenTree(b)
    case Simple(_) => false
    case Compound(_) => false
    case DoWhile(_, _) => false
  }

  /** Else e goes to the innermost open if. */
  function Attach(t: Stmt, e: Stmt): Stmt
    requires OpenTree(t)
  {
    match t
    case If(c, a, None) => if OpenTree(a) then If(c, Attach(a, e), None) else If(c, a, Some(e))
    case If(c, a, Some(b)) => If(c, a, Some(Attach(b, e)))
    case While(c, b) => While(c, Attach(b, e))
    case For(h, b) => For(h, Attach(b, e))
    case Label(id, b) => Label(id, Attach(b, e))
  }

  /** The tree that the text of s stands for. */
  function Meant(java: bool, s: Stmt): Stmt
    decreases s, 1
  {
    match s
    case Simple(_) => s
    case Compound(ss) =>
      if |ss| == 1 && ss[0].Compound? then Meant(java, ss[0]) else Compound(MeantInside(java, ss))
    case If(c, a, None) => If(c, MeantBranch(java, a), None)
    case If(c, a, Some(b)) => MakeIf(c, MeantBranch(java, a), MeantBranch(java, b))
    case While(c, b) => While(c, Meant(java, b))
    case For(h, b) => For(h, Meant(java, b))
    case DoWhile(b, c) => DoWhile(Meant(java, b), c)
    case Label(id, b) => Label(id, Meant(java, b))
  }

  function MakeIf(c: string, a: Stmt, b: Stmt): Stmt {
    if OpenTree(a) then If(c, Attach(a, b), None) else If(c, a, Some(b))
  }

  function MeantBranch(java: bool, s: Stmt): Stmt
    decreases s, 2
  {
    if BareIf(s) then Compound([Meant(java, s)]) else Meant(java, s)
  }

  function MeantInside(java: bool, ss: seq<Stmt>): seq<Stmt>
    decreases ss, 1
  {
    if !java && |ss| > 1 && ss[0].Compound? then
      assert ss[0] in ss;
      MeantAll(java, ss[0].stms) + MeantAll(java, ss[1..])
    else MeantAll(java, ss)
  }

  function MeantAll(java: bool, ss: seq<Stmt>): (rs: seq<Stmt>)
    ensures |rs| == |ss|
    decreases ss, 0
  {
    if ss == [] then [] else [Meant(java, ss[0])] + MeantAll(java, ss[1..])
  }

  // ----- Reading greedily -----

  predicate ElseAt(ts: seq<Token>) { ts != [] && ts[0].KwElse? }

  /** An open tree takes the elses that follow it, one after the other. */
  function Absorb(t: Stmt, ts: seq<Token>): Reading
    decreases |ts|
  {
    if OpenTree(t) && ElseAt(ts) then
      var e := ReadStmt(ts[1..]);
      if e.Got? then Absorb(Attach(t, e.s), e.rest) else NoParse
    else Got(t, ts)
  }

  lemma {:induction false} AttachTwice(t: Stmt, y: Stmt, e: Stmt)
    requires OpenTree(t) && OpenTree(y)
    ensures OpenTree(Attach(t, y)) && Attach(Attach(t, y), e) == Attach(t, Attach(y, e))
    decreases t
  {
    match t
    case If(c, a, None) => if OpenTree(a) { AttachTwice(a, y, e); }
    case If(c, a, Some(b)) => AttachTwice(b, y, e);
    case While(c, b) => AttachTwice(b, y, e);
    case For(h, b) => AttachTwice(b, y, e);
    case Label(id, b) => AttachTwice(b, y, e);
  }

  /** Continuing a reading behind the else branch y of t. */
  function Then(t: Stmt, r: Reading): Reading
    requires OpenTree(t)
  {
    if r.Got? then Absorb(Attach(t, r.s), r.rest) else NoParse
  }

  /** Elses go into the else branch first, and then to the ifs around it. */
  lemma {:induction false} AbsorbInElse(t: Stmt, y: Stmt, ts: seq<Token>)
    requires OpenTree(t)
    ensures Absorb(Attach(t, y), ts) == Then(t, Absorb(y, ts))
    decreases |ts|
  {
    hide Attach, ReadStmt;
    if OpenTree(y) && ElseAt(ts) {
      var e := ReadStmt(ts[1..]);
      if e.Got? {
        AttachTwice(t, y, e.s);
        AbsorbInElse(t, Attach(y, e.s), e.rest);
      } else {
        AttachTwice(t, y, y);
      }
    }
  }

  /** Wrapping what was read in a while, for, label or if. */
  lemma {:induction false} AbsorbInWhile(c: string, t: Stmt, ts: seq<Token>)
    ensures Absorb(While(c, t), ts) == (var r := Absorb(t, ts); if r.Got? then Got(While(c, r.s), r.rest) else NoParse)
    decreases |ts|
  {
    hide ReadStmt;
    if OpenTree(t) && ElseAt(ts) {
      var e := ReadStmt(ts[1..]);
      if e.Got? { AbsorbInWhile(c, Attach(t, e.s), e.rest); }
    }
  }

  lemma {:induction false} AbsorbInFor(h: string, t: Stmt, ts: seq<Token>)
    ensures Absorb(For(h, t), ts) == (var r := Absorb(t, ts); if r.Got? then Got(For(h, r.s), r.rest) else NoParse)
    decreases |ts|
  {
    hide ReadStmt;
    if OpenTree(t) && ElseAt(ts) {
      var e := ReadStmt(ts[1..]);
      if e.Got? { AbsorbInFor(h, Attach(t, e.s), e.rest); }
    }
  }

  lemma {:induction false} AbsorbInLabel(id: string, t: Stmt, ts: seq<Token>)
    ensures Absorb(Label(id, t), ts)
            == (var r := Absorb(t, ts); if r.Got? then Got(Label(id, r.s), r.rest) else NoParse)
    decreases |ts|
  {
    hide ReadStmt;
    if OpenTree(t) && ElseAt(ts) {
      var e := ReadStmt(ts[1..]);
      if e.Got? { AbsorbInLabel(id, Attach(t, e.s), e.rest); }
    }
  }

  lemma {:induction false} AbsorbInElseBranch(c: string, a: Stmt, t: Stmt, ts: seq<Token>)
    ensures Absorb(If(c, a, Some(t)), ts)
         == (var r := Absorb(t, ts); if r.Got? then Got(If(c, a, Some(r.s)), r.rest) else NoParse)
    decreases |ts|
  {
    hide ReadStmt;
    if OpenTree(t) && ElseAt(ts) {
      var e := ReadStmt(ts[1..]);
      if e.Got? { AbsorbInElseBranch(c, a, Attach(t, e.s), e.rest); }
    }
  }

  /** The if rule of the reader, given the reading of the first branch. */
  function AfterBranch(c: string, a: Reading): Reading {
    if a.NoParse? then NoParse
    else if ElseAt(a.rest) then
      var b := ReadStmt(a.rest[1..]);
      if b.Got? then Got(If(c, a.s, Some(b.s)), b.rest) else NoParse
    else Got(If(c, a.s, None), a.rest)
  }

  /** Everything read is read greedily. */
  ghost predicate Greedy(ts: seq<Token>) {
    var r := ReadStmt(ts);
    r.Got? ==> !OpenTree(r.s) || !ElseAt(r.rest)
  }

  lemma {:induction false} ReadIsGreedy(ts: seq<Token>)
    ensures Greedy(ts)
    decreases |ts|
  {
    hide ReadList;
    if ts != [] {
      match ts[0]
      case KwIf(_) =>
        ReadIsGreedy(ts[1..]);
        var a := ReadStmt(ts[1..]);
        if a.Got? && ElseAt(a.rest) { ReadIsGreedy(a.rest[1..]); }
      case KwWhile(_) => ReadIsGreedy(ts[1..]);
      case KwFor(_) => ReadIsGreedy(ts[1..]);
      case LabelColon(_) => ReadIsGreedy(ts[1..]);
      case Text(_) =>
      case LBrace =>
      case KwDo =>
      case RBrace =>
      case KwElse =>
      case DoEnd(_) =>
    }
  }

  /** An if without else takes elses as its branch does, and then one itself. */
  lemma {:induction false} AbsorbInIf(c: string, t: Stmt, ts: seq<Token>)
    ensures Absorb(If(c, t, None), ts) == AfterBranch(c, Absorb(t, ts))
    decreases |ts|
  {
    hide ReadStmt;
    if ElseAt(ts) {
      var e := ReadStmt(ts[1..]);
      if e.Got? {
        if OpenTree(t) {
          AbsorbInIf(c, Attach(t, e.s), e.rest);
        } else {
          ReadIsGreedy(ts[1..]);
          AbsorbInElseBranch(c, t, e.s, e.rest);
        }
      }
    } else {
      assert Absorb(t, ts) == Got(t, ts);
    }
  }

  // ----- Every printed statement reads as what it means -----

  lemma {:induction false} FirstToken(java: bool, s: Stmt)
    ensures !Print(java, s)[0].RBrace? && !Print(java, s)[0].KwElse?
    decreases s
  {
    match s
    case Compound(ss) => if |ss| == 1 && ss[0].Compound? { FirstToken(java, ss[0]); }
    case Simple(_) =>
    case If(_, _, _) =>
    case While(_, _) =>
    case For(_, _) =>
    case DoWhile(_, _) =>
    case Label(_, _) =>
  }

  lemma {:induction false} ClosedAbsorbs(t: Stmt, ts: seq<Token>)
    requires !OpenTree(t) || !ElseAt(ts)
    ensures Absorb(t, ts) == Got(t, ts)
  {
  }

  lemma {:induction false} Reads(java: bool, s: Stmt, rest: seq<Token>)
    ensures ReadStmt(Print(java, s) + rest) == Absorb(Meant(java, s), rest)
    decreases s, 1
  {
    hide ReadList, Absorb, PrintInside, MeantInside, OpenTree, Attach, ReadStmt;
    match s
    case Simple(t) =>
      ClosedAbsorbs(s, rest) by { SimpleIsClosed(t); }
      SimpleReads(t, rest);
    case Compound(ss) =>
      if |ss| == 1 && ss[0].Compound? {
        Reads(java, ss[0], rest);
      } else {
        BlockReads(java, ss, rest);
      }
    case If(c, a, None) =>
      IfReads(java, c, a, rest);
    case If(c, a, Some(b)) =>
      IfElseReads(java, c, a, b, rest);
    case While(c, b) =>
      Reads(java, b, rest);
      AbsorbInWhile(c, Meant(java, b), rest);
      LoopReads(KwWhile(c), Print(java, b), rest);
    case For(h, b) =>
      Reads(java, b, rest);
      AbsorbInFor(h, Meant(java, b), rest);
      LoopReads(KwFor(h), Print(java, b), rest);
    case Label(id, b) =>
      Reads(java, b, rest);
      AbsorbInLabel(id, Meant(java, b), rest);
      LoopReads(LabelColon(id), Print(java, b), rest);
    case DoWhile(b, c) =>
      Reads(java, b, [DoEnd(c)] + rest);
      DoReads(java, b, c, rest);
  }

  lemma {:induction false} SimpleIsClosed(t: string)
    ensures !OpenTree(Simple(t))
  {
  }

  lemma {:induction false} SimpleReads(t: string, rest: seq<Token>)
    ensures ReadStmt([Text(t)] + rest) == Got(Simple(t), rest)
  {
    assert ([Text(t)] + rest)[1..] == rest;
  }

  /** The reader's rule for while, for and label. */
  lemma {:induction false} LoopReads(head: Token, body: seq<Token>, rest: seq<Token>)
    requires head.KwWhile? || head.KwFor? || head.LabelColon?
    ensures ReadStmt([head] + body + rest)
         == (var b := ReadStmt(body + rest);
             if b.Got? then Got(if head.KwWhile? then While(head.cond, b.s) else if head.KwFor? then For(head.head, b.s)
                                else Label(head.id, b.s), b.rest) else NoParse)
  {
    hide ReadList;
    assert ([head] + body + rest)[1..] == body + rest;
  }

  lemma {:induction false} IfRule(c: string, ts: seq<Token>)
    ensures ReadStmt([KwIf(c)] + ts) == AfterBranch(c, ReadStmt(ts))
  {
    hide ReadList;
    assert ([KwIf(c)] + ts)[1..] == ts;
  }

  lemma {:induction false} DoReads(java: bool, b: Stmt, c: string, rest: seq<Token>)
    requires ReadStmt(Print(java, b) + ([DoEnd(c)] + rest)) == Absorb(Meant(java, b), [DoEnd(c)] + rest)
    ensures ReadStmt(Print(java, DoWhile(b, c)) + rest) == Absorb(Meant(java, DoWhile(b, c)), rest)
  {
    hide ReadList;
    var ts := Print(java, DoWhile(b, c)) + rest;
    assert ts[1..] == Print(java, b) + ([DoEnd(c)] + rest);
    assert ([DoEnd(c)] + rest)[1..] == rest;
  }

  lemma {:induction false} BranchReads(java: bool, s: Stmt, rest: seq<Token>)
    ensures ReadStmt(PrintBranch(java, s) + rest) == Absorb(MeantBranch(java, s), rest)
    decreases s, 2
  {
    hide ReadList, Print, Meant, ReadStmt, Absorb;
    if BareIf(s) {
      var after := [RBrace] + rest;
      Reads(java, s, after);
      BracedReads(java, s, rest);
    } else {
      Reads(java, s, rest);
    }
  }

  lemma {:induction false} BracedReads(java: bool, s: Stmt, rest: seq<Token>)
    requires ReadStmt(Print(java, s) + ([RBrace] + rest)) == Absorb(Meant(java, s), [RBrace] + rest)
    ensures ReadStmt([LBrace] + Print(java, s) + [RBrace] + rest) == Absorb(Compound([Meant(java, s)]), rest)
  {
    FirstToken(java, s);
    hide Print, Meant;
    var after := [RBrace] + rest;
    var ts := [LBrace] + Print(java, s) + [RBrace] + rest;
    assert ts[1..] == Print(java, s) + after;
    assert (Print(java, s) + after)[0] == Print(java, s)[0];
    assert ReadStmt(ts[1..]) == Got(Meant(java, s), after);
    assert ReadList(after) == Listed([], after);
    assert ReadList(ts[1..]) == Listed([Meant(java, s)] + [], after);
    assert [Meant(java, s)] + [] == [Meant(java, s)];
    assert after[1..] == rest;
  }

  lemma {:induction false} IfReads(java: bool, c: string, a: Stmt, rest: seq<Token>)
    ensures ReadStmt(Print(java, If(c, a, None)) + rest) == Absorb(Meant(java, If(c, a, None)), rest)
    decreases If(c, a, None), 0
  {
    hide ReadStmt, Absorb, PrintBranch, MeantBranch, AfterBranch;
    BranchReads(java, a, rest);
    IfRule(c, PrintBranch(java, a) + rest);
    assert Print(java, If(c, a, None)) + rest == [KwIf(c)] + (PrintBranch(java, a) + rest);
    AbsorbInIf(c, MeantBranch(java, a), rest);
  }

  lemma {:induction false} IfElseReads(java: bool, c: string, a: Stmt, b: Stmt, rest: seq<Token>)
    ensures ReadStmt(Print(java, If(c, a, Some(b))) + rest) == Absorb(Meant(java, If(c, a, Some(b))), rest)
    decreases If(c, a, Some(b)), 0
  {
    hide ReadStmt, Absorb, PrintBranch, MeantBranch, AfterBranch, OpenTree, Attach;
    var behind := PrintBranch(java, b) + rest;
    var after := [KwElse] + behind;
    BranchReads(java, a, after);
    BranchReads(java, b, rest);
    IfRule(c, PrintBranch(java, a) + after);
    assert Print(java, If(c, a, Some(b))) + rest == [KwIf(c)] + (PrintBranch(java, a) + after);
    ElseReads(c, MeantBranch(java, a), MeantBranch(java, b), behind, rest);
  }

  /** An else whose branch reads as y: taken by x if it is open, and else by the if around. */
  lemma {:induction false} ElseReads(c: string, x: Stmt, y: Stmt, behind: seq<Token>, rest: seq<Token>)
    requires ReadStmt(behind) == Absorb(y, rest)
    ensures AfterBranch(c, Absorb(x, [KwElse] + behind)) == Absorb(MakeIf(c, x, y), rest)
  {
    hide ReadStmt, Attach;
    var after := [KwElse] + behind;
    assert after[1..] == behind;
    if OpenTree(x) {
      AbsorbInElse(x, y, rest);
      AbsorbInIf(c, Attach(x, y), rest);
    } else {
      AbsorbInElseBranch(c, x, y, rest);
    }
  }

  lemma {:induction false} ListReads(java: bool, ss: seq<Stmt>, rest: seq<Token>)
    requires rest != [] && rest[0].RBrace?
    ensures ReadList(PrintAll(java, ss) + rest) == Listed(MeantAll(java, ss), rest)
    decreases ss, 0
  {
    hide ReadStmt, Print, Meant;
    if ss == [] {
      assert PrintAll(java, ss) + rest == rest;
    } else {
      var after := PrintAll(java, ss[1..]) + rest;
      Reads(java, ss[0], after);
      ListReads(java, ss[1..], rest);
      FirstToken(java, ss[0]);
      NoElseBehind(java, ss[1..], rest);
      assert PrintAll(java, ss) + rest == Print(java, ss[0]) + after;
      assert (Print(java, ss[0]) + after)[0] == Print(java, ss[0])[0];
    }
  }

  lemma {:induction false} NoElseBehind(java: bool, ss: seq<Stmt>, rest: seq<Token>)
    requires rest != [] && rest[0].RBrace?
    ensures !ElseAt(PrintAll(java, ss) + rest)
  {
    hide Print;
    if ss != [] {
      FirstToken(java, ss[0]);
      assert (PrintAll(java, ss) + rest)[0] == Print(java, ss[0])[0];
    } else {
      assert PrintAll(java, ss) + rest == rest;
    }
  }

  lemma {:induction false} AllConcat(java: bool, a: seq<Stmt>, b: seq<Stmt>)
    ensures PrintAll(java, a + b) == PrintAll(java, a) + PrintAll(java, b)
    ensures MeantAll(java, a + b) == MeantAll(java, a) + MeantAll(java, b)
    decreases |a|
  {
    if a == [] {
      assert a + b == b;
      hide Print, Meant;
    } else {
      hide *;
      AllConcat(java, a[1..], b);
      assert (a + b)[0] == a[0] && (a + b)[1..] == a[1..] + b;
      AllHead(java, a + b);
      AllHead(java, a);
      Regroup2(Print(java, a[0]), PrintAll(java, a[1..]), PrintAll(java, b));
      Regroup2([Meant(java, a[0])], MeantAll(java, a[1..]), MeantAll(java, b));
    }
  }

  lemma {:induction false} Regroup2<T>(x: seq<T>, y: seq<T>, z: seq<T>)
    ensures x + y + z == x + (y + z)
  {
  }

  lemma {:induction false} BlockReads(java: bool, ss: seq<Stmt>, rest: seq<Token>)
    ensures ReadStmt([LBrace] + PrintInside(java, ss) + [RBrace] + rest)
            == Absorb(Compound(MeantInside(java, ss)), rest)
    decreases ss, 2
  {
    hide Print, Meant, PrintAll, MeantAll;
    var after := [RBrace] + rest;
    var ts := [LBrace] + PrintInside(java, ss) + [RBrace] + rest;
    assert ts[1..] == PrintInside(java, ss) + after;
    assert after[1..] == rest;
    if !java && |ss| > 1 && ss[0].Compound? {
      assert ss[0] in ss;
      ListReads(java, ss[1..], after);
      MergedReads(java, ss[0].stms, ss[1..], after);
    } else {
      ListReads(java, ss, after);
    }
  }

  /** A merged block: the inner statements and then the outer ones. */
  lemma {:induction false} MergedReads(java: bool, a: seq<Stmt>, b: seq<Stmt>, rest: seq<Token>)
    requires rest != [] && rest[0].RBrace?
    requires ReadList(PrintAll(java, b) + rest) == Listed(MeantAll(java, b), rest)
    ensures ReadList(PrintAll(java, a) + PrintAll(java, b) + rest)
            == Listed(MeantAll(java, a) + MeantAll(java, b), rest)
    decreases a, 0
  {
    hide ReadStmt, Print, Meant, Absorb;
    if a == [] {
      assert PrintAll(java, a) + PrintAll(java, b) + rest == PrintAll(java, b) + rest;
      assert MeantAll(java, a) + MeantAll(java, b) == MeantAll(java, b);
    } else {
      hide PrintAll, MeantAll, ReadList, OpenTree;
      var after := PrintAll(java, a[1..]) + PrintAll(java, b) + rest;
      Reads(java, a[0], after);
      MergedReads(java, a[1..], b, rest);
      FirstToken(java, a[0]);
      AllConcat(java, a[1..], b);
      NoElseBehind(java, a[1..] + b, rest);
      ClosedAbsorbs(Meant(java, a[0]), after);
      ListStep(Print(java, a[0]) + after, Meant(java, a[0]), after, MeantAll(java, a[1..]) + MeantAll(java, b), rest);
      AllHead(java, a);
      Regroup(Print(java, a[0]), PrintAll(java, a[1..]), PrintAll(java, b), rest);
    }
  }

  lemma {:induction false} Regroup(x: seq<Token>, y: seq<Token>, z: seq<Token>, w: seq<Token>)
    ensures x + y + z + w == x + (y + z + w)
  {
  }

  lemma {:induction false} AllHead(java: bool, ss: seq<Stmt>)
    requires ss != []
    ensures PrintAll(java, ss) == Print(java, ss[0]) + PrintAll(java, ss[1..])
    ensures MeantAll(java, ss) == [Meant(java, ss[0])] + MeantAll(java, ss[1..])
  {
    hide Print, Meant;
  }

  lemma {:induction false} ListStep(ts: seq<Token>, s: Stmt, after: seq<Token>, ss: seq<Stmt>, rest: seq<Token>)
    requires ts != [] && !ts[0].RBrace? && ReadStmt(ts) == Got(s, after) && ReadList(after) == Listed(ss, rest)
    ensures ReadList(ts) == Listed([s] + ss, rest)
  {
    hide ReadStmt;
  }

  // ----- Braces do not matter -----

  lemma {:induction false} StripConcat(a: seq<Stmt>, b: seq<Stmt>)
    ensures StripAll(a + b) == StripAll(a) + StripAll(b)
    decreases |a|
  {
    hide Strip;
    if a == [] {
      assert a + b == b;
    } else {
      assert (a + b)[1..] == a[1..] + b;
      StripConcat(a[1..], b);
    }
  }

  lemma {:induction false} StripOne(s: Stmt)
    ensures StripAll([s]) == Strip(s)
  {
    hide Strip;
    assert [s][1..] == [];
  }

  /** A faithful statement is open as printed exactly if it is open as read. */
  lemma {:induction false} FaithfulOpen(java: bool, s: Stmt)
    requires Faithful(s)
    ensures OpenTree(Meant(java, s)) == Open(s)
    decreases s
  {
    hide MeantInside;
    match s
    case Compound(ss) => if |ss| == 1 && ss[0].Compound? { FaithfulOpen(java, ss[0]); }
    case If(c, a, Some(b)) =>
      FaithfulOpen(java, a);
      FaithfulOpen(java, b);
    case While(_, b) => FaithfulOpen(java, b);
    case For(_, b) => FaithfulOpen(java, b);
    case Label(_, b) => FaithfulOpen(java, b);
    case If(_, _, None) =>
    case Simple(_) =>
    case DoWhile(_, _) =>
  }

  lemma {:induction false} FaithfulStrips(java: bool, s: Stmt)
    requires Faithful(s)
    ensures Strip(Meant(java, s)) == Strip(s)
    decreases s, 1
  {
    hide MeantAll, StripAll, OpenTree, Open, Attach;
    match s
    case Simple(_) =>
    case Compound(ss) =>
      if |ss| == 1 && ss[0].Compound? {
        FaithfulStrips(java, ss[0]);
        StripOne(ss[0]);
        assert ss == [ss[0]];
      } else {
        InsideStrips(java, ss);
      }
    case If(c, a, None) => BranchStrips(java, a);
    case If(c, a, Some(b)) =>
      BranchStrips(java, a);
      BranchStrips(java, b);
      BranchOpen(java, a);
    case While(_, b) => FaithfulStrips(java, b);
    case For(_, b) => FaithfulStrips(java, b);
    case DoWhile(b, _) => FaithfulStrips(java, b);
    case Label(_, b) => FaithfulStrips(java, b);
  }

  lemma {:induction false} BranchOpen(java: bool, a: Stmt)
    requires Faithful(a)
    ensures OpenTree(MeantBranch(java, a)) == (!BareIf(a) && Open(a))
  {
    hide Meant;
    if !BareIf(a) { FaithfulOpen(java, a); }
  }

  lemma {:induction false} BranchStrips(java: bool, s: Stmt)
    requires Faithful(s)
    ensures Strip(MeantBranch(java, s)) == Strip(s)
    decreases s, 2
  {
    hide Meant, Faithful;
    FaithfulStrips(java, s);
    StripOne(Meant(java, s));
  }

  lemma {:induction false} InsideStrips(java: bool, ss: seq<Stmt>)
    requires forall x :: x in ss ==> Faithful(x)
    ensures StripAll(MeantInside(java, ss)) == StripAll(ss)
    decreases ss, 1
  {
    hide Meant, MeantAll;
    AllStrips(java, ss);
    if !java && |ss| > 1 && ss[0].Compound? {
      assert ss[0] in ss;
      AllStrips(java, ss[0].stms);
      AllStrips(java, ss[1..]);
      StripConcat(MeantAll(java, ss[0].stms), MeantAll(java, ss[1..]));
      assert StripAll(ss) == Strip(ss[0]) + StripAll(ss[1..]);
    }
  }

  lemma {:induction false} AllStrips(java: bool, ss: seq<Stmt>)
    requires forall x :: x in ss ==> Faithful(x)
    ensures StripAll(MeantAll(java, ss)) == StripAll(ss)
    decreases ss, 0
  {
    hide Meant, Strip, Faithful;
    if ss != [] {
      FaithfulStrips(java, ss[0]);
      AllStrips(java, ss[1..]);
      assert MeantAll(java, ss)[1..] == MeantAll(java, ss[1..]);
    }
  }

  // ----- An else that moves changes the tree -----

  /** Statements and elses; blocks do not count. */
  function Size(s: Stmt): nat
    decreases s, 1
  {
    match s
    case Simple(_) => 1
    case Compound(ss) => SizeAll(ss)
    case If(_, a, None) => 1 + Size(a)
    case If(_, a, Some(b)) => 2 + Size(a) + Size(b)
    case While(_, b) => 1 + Size(b)
    case For(_, b) => 1 + Size(b)
    case DoWhile(b, _) => 1 + Size(b)
    case Label(_, b) => 1 + Size(b)
  }

  function SizeAll(ss: seq<Stmt>): nat
    decreases ss, 0
  {
    if ss == [] then 0 else Size(ss[0]) + SizeAll(ss[1..])
  }

  /** How much stands in the first branches of ifs. */
  function First(s: Stmt): nat
    decreases s, 1
  {
    match s
    case Simple(_) => 0
    case Compound(ss) => FirstAll(ss)
    case If(_, a, None) => Size(a) + First(a)
    case If(_, a, Some(b)) => Size(a) + First(a) + First(b)
    case While(_, b) => First(b)
    case For(_, b) => First(b)
    case DoWhile(b, _) => First(b)
    case Label(_, b) => First(b)
  }

  function FirstAll(ss: seq<Stmt>): nat
    decreases ss, 0
  {
    if ss == [] then 0 else First(ss[0]) + FirstAll(ss[1..])
  }

  lemma {:induction false} MeasureConcat(a: seq<Stmt>, b: seq<Stmt>)
    ensures SizeAll(a + b) == SizeAll(a) + SizeAll(b) && FirstAll(a + b) == FirstAll(a) + FirstAll(b)
    decreases |a|
  {
    hide Size, First;
    if a == [] {
      assert a + b == b;
    } else {
      assert (a + b)[1..] == a[1..] + b;
      MeasureConcat(a[1..], b);
    }
  }

  lemma {:induction false} MeasureOne(s: Stmt)
    ensures SizeAll([s]) == Size(s) && FirstAll([s]) == First(s)
  {
    hide Size, First;
    assert [s][1..] == [];
  }

  lemma {:induction false} StripMeasure(s: Stmt)
    ensures SizeAll(Strip(s)) == Size(s) && FirstAll(Strip(s)) == First(s)
    decreases s, 1
  {
    hide StripAll, SizeAll, FirstAll;
    match s
    case Simple(_) => MeasureOne(s);
    case Compound(ss) => StripAllMeasure(ss);
    case If(c, a, None) =>
      StripMeasure(a);
      MeasureOne(If(c, Block(a), None));
    case If(c, a, Some(b)) =>
      StripMeasure(a);
      StripMeasure(b);
      MeasureOne(If(c, Block(a), Some(Block(b))));
    case While(c, b) =>
      StripMeasure(b);
      MeasureOne(While(c, Block(b)));
    case For(h, b) =>
      StripMeasure(b);
      MeasureOne(For(h, Block(b)));
    case DoWhile(b, c) =>
      StripMeasure(b);
      MeasureOne(DoWhile(Block(b), c));
    case Label(id, b) =>
      StripMeasure(b);
      MeasureOne(Label(id, Block(b)));
  }

  lemma {:induction false} StripAllMeasure(ss: seq<Stmt>)
    ensures SizeAll(StripAll(ss)) == SizeAll(ss) && FirstAll(StripAll(ss)) == FirstAll(ss)
    decreases ss, 0
  {
    hide Strip, Size, First;
    if ss != [] {
      StripMeasure(ss[0]);
      StripAllMeasure(ss[1..]);
      MeasureConcat(Strip(ss[0]), StripAll(ss[1..]));
    }
  }

  lemma {:induction false} AttachMeasure(t: Stmt, e: Stmt)
    requires OpenTree(t)
    ensures Size(Attach(t, e)) == Size(t) + 1 + Size(e) && First(Attach(t, e)) >= First(t) + First(e)
    decreases t
  {
    hide SizeAll, FirstAll;
    match t
    case If(c, a, None) => if OpenTree(a) { AttachMeasure(a, e); }
    case If(c, a, Some(b)) => AttachMeasure(b, e);
    case While(c, b) => AttachMeasure(b, e);
    case For(h, b) => AttachMeasure(b, e);
    case Label(id, b) => AttachMeasure(b, e);
  }

  lemma {:induction false} MakeIfMeasure(c: string, a: Stmt, b: Stmt)
    ensures Size(MakeIf(c, a, b)) == 2 + Size(a) + Size(b)
    ensures First(MakeIf(c, a, b)) >= Size(a) + First(a) + First(b)
    ensures First(MakeIf(c, a, b)) == Size(a) + First(a) + First(b) ==> !OpenTree(a)
  {
    hide SizeAll, FirstAll, Attach;
    if OpenTree(a) { AttachMeasure(a, b); }
  }

  lemma {:induction false} MeantMeasure(java: bool, s: Stmt)
    ensures Size(Meant(java, s)) == Size(s) && First(Meant(java, s)) >= First(s)
    ensures First(Meant(java, s)) == First(s) ==> Faithful(s)
    decreases s, 1
  {
    hide MeantAll, MeantInside, SizeAll, FirstAll, OpenTree, Open, Attach, MakeIf, MeantBranch;
    match s
    case Simple(_) =>
    case Compound(ss) =>
      if |ss| == 1 && ss[0].Compound? {
        MeantMeasure(java, ss[0]);
        MeasureOne(ss[0]);
        assert ss == [ss[0]];
      } else {
        InsideMeasure(java, ss);
      }
    case If(c, a, None) => BranchMeasure(java, a);
    case If(c, a, Some(b)) =>
      BranchMeasure(java, a);
      BranchMeasure(java, b);
      MakeIfMeasure(c, MeantBranch(java, a), MeantBranch(java, b));
      if Faithful(a) { BranchOpen(java, a); }
    case While(_, b) => MeantMeasure(java, b);
    case For(_, b) => MeantMeasure(java, b);
    case DoWhile(b, _) => MeantMeasure(java, b);
    case Label(_, b) => MeantMeasure(java, b);
  }

  lemma {:induction false} BranchMeasure(java: bool, s: Stmt)
    ensures Size(MeantBranch(java, s)) == Size(s) && First(MeantBranch(java, s)) >= First(s)
    ensures First(MeantBranch(java, s)) == First(s) ==> Faithful(s)
    decreases s, 2
  {
    hide Meant, Faithful, SizeAll, FirstAll;
    MeantMeasure(java, s);
    MeasureOne(Meant(java, s));
  }

  lemma {:induction false} InsideMeasure(java: bool, ss: seq<Stmt>)
    ensures SizeAll(MeantInside(java, ss)) == SizeAll(ss) && FirstAll(MeantInside(java, ss)) >= FirstAll(ss)
    ensures FirstAll(MeantInside(java, ss)) == FirstAll(ss) ==> forall x :: x in ss ==> Faithful(x)
    decreases ss, 1
  {
    hide Meant, MeantAll, Faithful;
    if !java && |ss| > 1 && ss[0].Compound? {
      var inner, outer := ss[0].stms, ss[1..];
      assert ss[0] in ss;
      AllMeasure(java, inner);
      AllMeasure(java, outer);
      MeasureConcat(MeantAll(java, inner), MeantAll(java, outer));
      assert SizeAll(ss) == SizeAll(inner) + SizeAll(outer) && FirstAll(ss) == FirstAll(inner) + FirstAll(outer);
      assert forall x :: x in ss ==> x == ss[0] || x in outer;
      FaithfulBlock(inner);
    } else {
      AllMeasure(java, ss);
    }
  }

  lemma {:induction false} FaithfulBlock(ss: seq<Stmt>)
    ensures Faithful(Compound(ss)) <==> forall x :: x in ss ==> Faithful(x)
  {
  }

  lemma {:induction false} AllMeasure(java: bool, ss: seq<Stmt>)
    ensures SizeAll(MeantAll(java, ss)) == SizeAll(ss) && FirstAll(MeantAll(java, ss)) >= FirstAll(ss)
    ensures FirstAll(MeantAll(java, ss)) == FirstAll(ss) ==> forall x :: x in ss ==> Faithful(x)
    decreases ss, 0
  {
    hide Meant, Size, First, Faithful;
    if ss != [] {
      MeantMeasure(java, ss[0]);
      AllMeasure(java, ss[1..]);
      assert MeantAll(java, ss)[1..] == MeantAll(java, ss[1..]);
      assert forall x :: x in ss ==> x == ss[0] || x in ss[1..];
    }
  }

  // ----- Main results -----

  /** Every printed statement parses, and as the tree with its elses taken by the nearest ifs. */
  lemma {:induction false} PrintedMeansNearestIf(java: bool, s: Stmt)
    ensures Read(Print(java, s)) == Some(Meant(java, s))
  {
    Reads(java, s, []);
    assert Print(java, s) + [] == Print(java, s);
    ClosedAbsorbs(Meant(java, s), []);
  }

  /** Up to braces the text means the printed tree exactly when the tree is faithful. */
  lemma {:induction false} ReadsBackIffFaithful(java: bool, s: Stmt)
    ensures Read(Print(java, s)).Some?
    ensures Strip(Read(Print(java, s)).value) == Strip(s) <==> Faithful(s)
  {
    hide Read, Print, Meant, Strip, Size, First, Faithful;
    PrintedMeansNearestIf(java, s);
    if Faithful(s) { FaithfulStrips(java, s); }
    if Strip(Meant(java, s)) == Strip(s) {
      StripMeasure(s);
      StripMeasure(Meant(java, s));
      MeantMeasure(java, s);
    }
  }

  /** The else behind a loop over an if without else goes to that if. */
  lemma {:induction false} LoopLosesElse(java: bool, c: string, d: string, e: string, x: Stmt, y: Stmt)
    requires x.Simple? && y.Simple?
    ensures Read(Print(java, If(c, While(d, If(e, x, None)), Some(y))))
            == Some(If(c, While(d, If(e, x, Some(y))), None))
  {
    var inner := If(e, x, None);
    PrintedMeansNearestIf(java, If(c, While(d, inner), Some(y)));
    assert Meant(java, x) == x && Meant(java, y) == y;
    assert MeantBranch(java, x) == x && Meant(java, inner) == inner;
    assert MeantBranch(java, While(d, inner)) == While(d, inner) && MeantBranch(java, y) == y;
    assert OpenTree(inner) && Attach(inner, y) == If(e, x, Some(y));
  }

  /** Loop and label bodies are blocks, as the generator builds them. */
  predicate BlockBodies(s: Stmt)
    decreases s
  {
    match s
    case Simple(_) => true
    case Compound(ss) => forall x :: x in ss ==> BlockBodies(x)
    case If(_, a, None) => BlockBodies(a)
    case If(_, a, Some(b)) => BlockBodies(a) && BlockBodies(b)
    case While(_, b) => b.Compound? && BlockBodies(b)
    case For(_, b) => b.Compound? && BlockBodies(b)
    case DoWhile(b, _) => b.Compound? && BlockBodies(b)
    case Label(_, b) => b.Compound? && BlockBodies(b)
  }

  lemma {:induction false} BlockBodiesClosed(s: Stmt)
    requires BlockBodies(s) && !BareIf(s)
    ensures !Open(s)
    decreases s
  {
    if s.If? && !BareIf(s.alt2.value) { BlockBodiesClosed(s.alt2.value); }
  }

  lemma {:induction false} BlockBodiesFaithful(s: Stmt)
    requires BlockBodies(s)
    ensures Faithful(s)
    decreases s
  {
    match s
    case Compound(ss) => forall x | x in ss ensures Faithful(x) { BlockBodiesFaithful(x); }
    case If(_, a, None) => BlockBodiesFaithful(a);
    case If(_, a, Some(b)) =>
      BlockBodiesFaithful(a);
      BlockBodiesFaithful(b);
      if !BareIf(a) { BlockBodiesClosed(a); }
    case While(_, b) => BlockBodiesFaithful(b);
    case For(_, b) => BlockBodiesFaithful(b);
    case DoWhile(b, _) => BlockBodiesFaithful(b);
    case Label(_, b) => BlockBodiesFaithful(b);
    case Simple(_) =>
  }

  /** With blocks as loop and label bodies every tree reads back up to braces. */
  lemma {:induction false} BlockBodiesReadBack(java: bool, s: Stmt)
    requires BlockBodies(s)
    ensures Read(Print(java, s)).Some? && Strip(Read(Print(java, s)).value) == Strip(s)
  {
    hide Read, Print, Strip, Faithful, BlockBodies;
    BlockBodiesFaithful(s);
    ReadsBackIffFaithful(java, s);
  }

  // ----- Braces -----

  /** The number of open braces behind ts, if none is closed that was not opened. */
  function Depth(ts: seq<Token>, d: nat): Opt<nat>
    decreases |ts|
  {
    if ts == [] then Some(d)
    else if ts[0].LBrace? then Depth(ts[1..], d + 1)
    else if ts[0].RBrace? then (if d == 0 then None else Depth(ts[1..], d - 1))
    else Depth(ts[1..], d)
  }

  ghost predicate Balanced(ts: seq<Token>) {
    forall rest: seq<Token>, d: nat :: Depth(ts + rest, d) == Depth(rest, d)
  }

  lemma {:induction false} OneToken(t: Token)
    requires !t.LBrace? && !t.RBrace?
    ensures Balanced([t])
  {
    forall rest: seq<Token>, d: nat ensures Depth([t] + rest, d) == Depth(rest, d) { assert ([t] + rest)[1..] == rest; }
  }

  lemma {:induction false} BalancedConcat(a: seq<Token>, b: seq<Token>)
    requires Balanced(a) && Balanced(b)
    ensures Balanced(a + b)
  {
    hide Depth;
    forall rest: seq<Token>, d: nat ensures Depth(a + b + rest, d) == Depth(rest, d) {
      assert a + b + rest == a + (b + rest);
    }
  }

  lemma {:induction false} Braced(a: seq<Token>)
    requires Balanced(a)
    ensures Balanced([LBrace] + a + [RBrace])
  {
    forall rest: seq<Token>, d: nat ensures Depth([LBrace] + a + [RBrace] + rest, d) == Depth(rest, d) {
      var ts := [LBrace] + a + [RBrace] + rest;
      assert ts[1..] == a + ([RBrace] + rest);
      assert ([RBrace] + rest)[1..] == rest;
    }
  }

  /** Printed braces are balanced, whatever the tree. */
  lemma {:induction false} BracesBalanced(java: bool, s: Stmt)
    ensures Balanced(Print(java, s))
    decreases s, 1
  {
    hide PrintInside, PrintBranch, Balanced;
    match s
    case Simple(t) => OneToken(Text(t));
    case Compound(ss) =>
      if |ss| == 1 && ss[0].Compound? {
        BracesBalanced(java, ss[0]);
      } else {
        InsideBalanced(java, ss);
        Braced(PrintInside(java, ss));
      }
    case If(c, a, b) =>
      OneToken(KwIf(c));
      BranchBalanced(java, a);
      BalancedConcat([KwIf(c)], PrintBranch(java, a));
      if b.Some? {
        OneToken(KwElse);
        BranchBalanced(java, b.value);
        BalancedConcat([KwElse], PrintBranch(java, b.value));
        BalancedConcat([KwIf(c)] + PrintBranch(java, a), [KwElse] + PrintBranch(java, b.value));
      } else {
        assert Print(java, s) == [KwIf(c)] + PrintBranch(java, a);
      }
    case While(c, b) =>
      OneToken(KwWhile(c));
      BracesBalanced(java, b);
      BalancedConcat([KwWhile(c)], Print(java, b));
    case For(h, b) =>
      OneToken(KwFor(h));
      BracesBalanced(java, b);
      BalancedConcat([KwFor(h)], Print(java, b));
    case DoWhile(b, c) =>
      OneToken(KwDo);
      OneToken(DoEnd(c));
      BracesBalanced(java, b);
      BalancedConcat([KwDo], Print(java, b));
      BalancedConcat([KwDo] + Print(java, b), [DoEnd(c)]);
    case Label(id, b) =>
      OneToken(LabelColon(id));
      BracesBalanced(java, b);
      BalancedConcat([LabelColon(id)], Print(java, b));
  }

  lemma {:induction false} BranchBalanced(java: bool, s: Stmt)
    ensures Balanced(PrintBranch(java, s))
    decreases s, 2
  {
    hide Balanced, Print;
    BracesBalanced(java, s);
    Braced(Print(java, s));
  }

  lemma {:induction false} InsideBalanced(java: bool, ss: seq<Stmt>)
    ensures Balanced(PrintInside(java, ss))
    decreases ss, 1
  {
    hide Balanced, PrintAll;
    AllBalanced(java, ss);
    if !java && |ss| > 1 && ss[0].Compound? {
      assert ss[0] in ss;
      AllBalanced(java, ss[0].stms);
      AllBalanced(java, ss[1..]);
      BalancedConcat(PrintAll(java, ss[0].stms), PrintAll(java, ss[1..]));
    }
  }

  lemma {:induction false} AllBalanced(java: bool, ss: seq<Stmt>)
    ensures Balanced(PrintAll(java, ss))
    decreases ss, 0
  {
    hide Print;
    if ss == [] {
      forall rest: seq<Token>, d: nat ensures Depth([] + rest, d) == Depth(rest, d) { assert [] + rest == rest; }
    } else {
      hide Balanced;
      BracesBalanced(java, ss[0]);
      AllBalanced(java, ss[1..]);
      BalancedConcat(Print(java, ss[0]), PrintAll(java, ss[1..]));
    }
  }
}
