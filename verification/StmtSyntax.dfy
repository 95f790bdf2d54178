/**
 Statement trees of the back end, the tokens they are printed to, and a reader that gives
 every else to the nearest if that can take it (section 6.4.1 of ISO/IEC 14882:2003 and
 section 14.5 of the Java Language Specification).
 */
module StmtSyntax {

  datatype Opt<T> = None | Some(value: T)

  /** Conditions, loop heads and simple statements are taken whole. */
  datatype Stmt =
    | Simple(text: string)
    | Compound(stms: seq<Stmt>)
    | If(cond: string, alt1: Stmt, alt2: Opt<Stmt>)
    | While(cond: string, body: Stmt)
    | For(head: string, body: Stmt)
    | DoWhile(body: Stmt, cond: string)
    | Label(id: string, stmt: Stmt)

  datatype Token =
    | Text(text: string)
    | LBrace | RBrace
    | KwIf(cond: string) | KwElse | KwWhile(cond: string) | KwFor(head: string) | KwDo | DoEnd(cond: string)
    | LabelColon(id: string)

  /** An if without else, which the printer puts in braces where it is a branch. */
  predicate BareIf(s: Stmt) { s.If? && s.alt2.None? }

  // ----- Printing -----

  /** GenCode on statements; java selects the compound statement's treatment of a leading block. */
  function Print(java: bool, s: Stmt): (ts: seq<Token>)
    ensures ts != []
    decreases s, 1
  {
    match s
    case Simple(t) => [Text(t)]
    case Compound(ss) =>
      if |ss| == 1 && ss[0].Compound? then Print(java, ss[0])
      else [LBrace] + PrintInside(java, ss) + [RBrace]
    case If(c, a, b) =>
      [KwIf(c)] + PrintBranch(java, a)
      + (match b case None => [] case Some(e) => [KwElse] + PrintBranch(java, e))
    case While(c, b) => [KwWhile(c)] + Print(java, b)
    case For(h, b) => [KwFor(h)] + Print(java, b)
    case DoWhile(b, c) => [KwDo] + Print(java, b) + [DoEnd(c)]
    case Label(id, b) => [LabelColon(id)] + Print(java, b)
  }

  function PrintBranch(java: bool, s: Stmt): (ts: seq<Token>)
    ensures ts != []
    decreases s, 2
  {
    if BareIf(s) then [LBrace] + Print(java, s) + [RBrace] else Print(java, s)
  }

  /** In C++ a block that starts a longer block loses its braces. */
  function PrintInside(java: bool, ss: seq<Stmt>): seq<Token>
    decreases ss, 1
  {
    if !java && |ss| > 1 && ss[0].Compound? then
      assert ss[0] in ss;
      PrintAll(java, ss[0].stms) + PrintAll(java, ss[1..])
    else PrintAll(java, ss)
  }

  function PrintAll(java: bool, ss: seq<Stmt>): seq<Token>
    decreases ss, 0
  {
    if ss == [] then [] else Print(java, ss[0]) + PrintAll(java, ss[1..])
  }

  // ----- Reading -----

  datatype Reading = NoParse | Got(s: Stmt, rest: seq<Token>)

  datatype Listing = NoList | Listed(ss: seq<Stmt>, rest: seq<Token>)

  function ReadStmt(ts: seq<Token>): (r: Reading)
    ensures r.Got? ==> |r.rest| < |ts|
    decreases |ts|, 1
  {
    if ts == [] then NoParse
    else match ts[0]
      case Text(t) => Got(Simple(t), ts[1..])
      case LBrace =>
        var l := ReadList(ts[1..]);
        if l.Listed? && l.rest != [] && l.rest[0].RBrace? then Got(Compound(l.ss), l.rest[1..]) else NoParse
      case KwIf(c) =>
        var a := ReadStmt(ts[1..]);
        if a.Got? && a.rest != [] && a.rest[0].KwElse? then
          var b := ReadStmt(a.rest[1..]);
          if b.Got? then Got(If(c, a.s, Some(b.s)), b.rest) else NoParse
        else if a.Got? then Got(If(c, a.s, None), a.rest)
        else NoParse
      case KwWhile(c) =>
        var b := ReadStmt(ts[1..]);
        if b.Got? then Got(While(c, b.s), b.rest) else NoParse
      case KwFor(h) =>
        var b := ReadStmt(ts[1..]);
        if b.Got? then Got(For(h, b.s), b.rest) else NoParse
      case KwDo =>
        var b := ReadStmt(ts[1..]);
        if b.Got? && b.rest != [] && b.rest[0].DoEnd? then Got(DoWhile(b.s, b.rest[0].cond), b.rest[1..]) else NoParse
      case LabelColon(id) =>
        var b := ReadStmt(ts[1..]);
        if b.Got? then Got(Label(id, b.s), b.rest) else NoParse
      case RBrace => NoParse
      case KwElse => NoParse
      case DoEnd(_) => NoParse
  }

  /** Statements up to a closing brace. */
  function ReadList(ts: seq<Token>): (r: Listing)
    ensures r.Listed? ==> |r.rest| <= |ts|
    decreases |ts|, 2
  {
    if ts == [] || ts[0].RBrace? then Listed([], ts)
    else
      var s := ReadStmt(ts);
      if s.NoParse? then NoList
      else
        var more := ReadList(s.rest);
        if more.Listed? then Listed([s.s] + more.ss, more.rest) else NoList
  }

  /** The whole text as one statement. */
  function Read(ts: seq<Token>): Opt<Stmt> {
    var r := ReadStmt(ts);
    if r.Got? && r.rest == [] then Some(r.s) else None
  }

  // ----- Trees up to braces -----

  /** The statement as a list without blocks; what is controlled is always one block. */
  function Strip(s: Stmt): seq<Stmt>
    decreases s, 1
  {
    match s
    case Simple(_) => [s]
    case Compound(ss) => StripAll(ss)
    case If(c, a, b) => [If(c, Block(a), match b case None => None case Some(e) => Some(Block(e)))]
    case While(c, b) => [While(c, Block(b))]
    case For(h, b) => [For(h, Block(b))]
    case DoWhile(b, c) => [DoWhile(Block(b), c)]
    case Label(id, b) => [Label(id, Block(b))]
  }

  function Block(s: Stmt): Stmt
    decreases s, 2
  {
    Compound(Strip(s))
  }

  function StripAll(ss: seq<Stmt>): seq<Stmt>
    decreases ss, 0
  {
    if ss == [] then [] else Strip(ss[0]) + StripAll(ss[1..])
  }
}
