/**
 Operations of one object, run by any number of threads. Every operation is generated as
 entering(n); try { body } finally { leaving(n); }. The sentinel is taken to let
 entering(n) wait for evaluatePP(n) and then count the call, in one step.
 */
module SyncProtocol {
  import opened SyncTables
  import opened SyncGuards

  /** Generated code as far as it matters here. Handlers catch; Choose and Loop may go either way. */
  datatype Stmt =
    | Skip
    | Entering(n: nat)
    | Leaving(n: nat)
    | Call(op: OpName)
    | Throw
    | Return
    | TryFinally(body: seq<Stmt>, fin: seq<Stmt>)
    | TryCatch(body: seq<Stmt>, handler: seq<Stmt>)
    | Choose(a: seq<Stmt>, b: seq<Stmt>)
    | Loop(body: seq<Stmt>)

  /** GenConcOper: the body of operation n wrapped in the sentinel's calls. */
  function GenConcOper(n: nat, fb: seq<Stmt>): seq<Stmt> {
    [Entering(n), TryFinally(fb, [Leaving(n)])]
  }

  // ----- Threads -----

  datatype Mode = Normal | Throwing | Returning

  /** What a thread still has to do: statements, pending finally and catch blocks, ends of calls. */
  datatype Item = Do(s: Stmt) | Finally(ss: seq<Stmt>) | Handler(ss: seq<Stmt>) | Resume(m: Mode) | CallEnd

  datatype Thread = Thread(todo: seq<Item>, mode: Mode)

  /** active: the sentinel's counters, one for each operation number. */
  datatype State = State(active: seq<int>, threads: seq<Thread>)

  /** The generated code of an object; cases is the evaluatePP it runs (see InheritedCases). */
  datatype Program = Program(bodies: map<OpName, seq<Stmt>>, operConst: map<OpName, nat>, cases: seq<Case>)

  function DoAll(ss: seq<Stmt>): seq<Item> {
    seq(|ss|, i requires 0 <= i < |ss| => Do(ss[i]))
  }

  /** Statements of a body: all but the sentinel's calls. */
  predicate UserStmt(s: Stmt) {
    match s
    case Entering(_) => false
    case Leaving(_) => false
    case TryFinally(b, f) => (forall x :: x in b ==> UserStmt(x)) && forall x :: x in f ==> UserStmt(x)
    case TryCatch(b, f) => (forall x :: x in b ==> UserStmt(x)) && forall x :: x in f ==> UserStmt(x)
    case Choose(b, f) => (forall x :: x in b ==> UserStmt(x)) && forall x :: x in f ==> UserStmt(x)
    case Loop(b) => forall x :: x in b ==> UserStmt(x)
    case Skip => true
    case Call(_) => true
    case Throw => true
    case Return => true
  }

  predicate UserCode(ss: seq<Stmt>) { forall x :: x in ss ==> UserStmt(x) }

  /** Bodies are user code, and operation constants are legal indices of the counters. */
  ghost predicate CodeOk(p: Program, nr: nat) {
    forall n :: n in p.bodies ==> UserCode(p.bodies[n]) && n in p.operConst && p.operConst[n] < nr
  }

  datatype Outcome = Blocked | Moves(th: Thread, active: seq<int>)

  /** One statement in normal mode; g is what the guards evaluate to right now. */
  ghost function DoStmt(p: Program, s: Stmt, rest: seq<Item>, active: seq<int>, choice: bool, g: GuardExpr -> bool)
      : Outcome
  {
    match s
    case Skip => Moves(Thread(rest, Normal), active)
    case Entering(n) =>
      if n < |active| && EvaluatePP(p.cases, n, active, g) then Moves(Thread(rest, Normal), active[n := active[n] + 1])
      else Blocked
    case Leaving(n) =>
      if n < |active| then Moves(Thread(rest, Normal), active[n := active[n] - 1]) else Blocked
    case Call(op) =>
      if op in p.bodies && op in p.operConst
      then Moves(Thread(DoAll(GenConcOper(p.operConst[op], p.bodies[op])) + [CallEnd] + rest, Normal), active)
      else Moves(Thread(rest, Normal), active)
    case Throw => Moves(Thread(rest, Throwing), active)
    case Return => Moves(Thread(rest, Returning), active)
    case TryFinally(b, f) => Moves(Thread(DoAll(b) + [Finally(f)] + rest, Normal), active)
    case TryCatch(b, f) => Moves(Thread(DoAll(b) + [Handler(f)] + rest, Normal), active)
    case Choose(a, b) => Moves(Thread(DoAll(if choice then a else b) + rest, Normal), active)
    case Loop(b) => Moves(Thread(if choice then DoAll(b) + [Do(s)] + rest else rest, Normal), active)
  }

  /** Running into or unwinding through one item. */
  ghost function Next(p: Program, th: Thread, active: seq<int>, choice: bool, g: GuardExpr -> bool): Outcome
  {
    if th.todo == [] then Blocked
    else
      var rest := th.todo[1..];
      match (th.mode, th.todo[0])
      case (Normal, Do(s)) => DoStmt(p, s, rest, active, choice, g)
      case (Normal, Finally(f)) => Moves(Thread(DoAll(f) + rest, Normal), active)
      case (Normal, Resume(m)) => Moves(Thread(rest, m), active)
      case (Normal, _) => Moves(Thread(rest, Normal), active)
      case (m, Finally(f)) => Moves(Thread(DoAll(f) + [Resume(m)] + rest, Normal), active)
      case (Throwing, Handler(f)) => Moves(Thread(DoAll(f) + rest, Normal), active)
      case (Returning, CallEnd) => Moves(Thread(rest, Normal), active)
      case (m, _) => Moves(Thread(rest, m), active)
  }

  /** Some thread makes a step. */
  ghost predicate Step(p: Program, s: State, s': State) {
    exists t: nat, choice: bool, g: GuardExpr -> bool ::
      t < |s.threads| && StepOf(s, s', Next(p, s.threads[t], s.active, choice, g), t)
  }

  ghost predicate StepOf(s: State, s': State, r: Outcome, t: nat)
    requires t < |s.threads|
  {
    r.Moves? && s' == State(r.active, s.threads[t := r.th])
  }

  /** Nothing active, and threads that have their own code to run. */
  ghost predicate Start(s: State, nr: nat) {
    && |s.active| == nr && (forall k :: 0 <= k < |s.active| ==> s.active[k] == 0)
    && forall t :: 0 <= t < |s.threads| ==>
         s.threads[t].mode == Normal && forall i :: i in s.threads[t].todo ==> i.Do? && UserStmt(i.s)
  }

  ghost predicate Run(p: Program, nr: nat, run: seq<State>) {
    && run != [] && Start(run[0], nr)
    && forall i :: 0 <= i < |run| - 1 ==> Step(p, run[i], run[i + 1])
  }

  // ----- Leavings a thread owes -----

  /** A leaving(n) still to come from this item: a call that has entered and not yet left. */
  function Owes(i: Item, n: nat): nat {
    match i
    case Finally(f) => if f == [Leaving(n)] then 1 else 0
    case Do(Leaving(k)) => if k == n then 1 else 0
    case Do(TryFinally(_, f)) => if f == [Leaving(n)] then 1 else 0
    case _ => 0
  }

  function OwedBy(items: seq<Item>, n: nat): nat {
    if items == [] then 0 else Owes(items[0], n) + OwedBy(items[1..], n)
  }

  /** Unfinished calls of operation n in a thread; one that still waits in entering has not begun. */
  function Unfinished(th: Thread, n: nat): nat {
    if |th.todo| >= 2 && th.todo[0].Do? && th.todo[0].s.Entering? then OwedBy(th.todo[2..], n) else OwedBy(th.todo, n)
  }

  function UnfinishedCalls(ths: seq<Thread>, n: nat): nat {
    if ths == [] then 0 else Unfinished(ths[0], n) + UnfinishedCalls(ths[1..], n)
  }

  lemma {:induction false} OwedByConcat(a: seq<Item>, b: seq<Item>, n: nat)
    ensures OwedBy(a + b, n) == OwedBy(a, n) + OwedBy(b, n)
  {
    hide Owes;
    if a == [] {
      assert a + b == b;
    } else {
      assert (a + b)[1..] == a[1..] + b;
      OwedByConcat(a[1..], b, n);
    }
  }

  lemma {:induction false} UserCodeOwesNothing(ss: seq<Stmt>, n: nat)
    requires UserCode(ss)
    ensures OwedBy(DoAll(ss), n) == 0
  {
    if ss != [] {
      assert ss[0] in ss && forall x :: x in ss[1..] ==> x in ss;
      UserStmtOwesNothing(ss[0], n);
      UserCodeOwesNothing(ss[1..], n);
      assert DoAll(ss)[1..] == DoAll(ss[1..]);
    }
  }

  lemma {:induction false} UserStmtOwesNothing(s: Stmt, n: nat)
    requires UserStmt(s)
    ensures Owes(Do(s), n) == 0
  {
    assert !UserStmt(Leaving(n)) && Leaving(n) in [Leaving(n)];
  }

  lemma {:induction false} UnfinishedUpdate(ths: seq<Thread>, t: nat, th: Thread, n: nat)
    requires t < |ths|
    ensures UnfinishedCalls(ths[t := th], n) == UnfinishedCalls(ths, n) - Unfinished(ths[t], n) + Unfinished(th, n)
    decreases |ths|
  {
    hide Unfinished;
    if t == 0 {
      assert ths[0 := th][1..] == ths[1..];
    } else {
      assert ths[t := th][1..] == ths[1..][t - 1 := th];
      UnfinishedUpdate(ths[1..], t - 1, th, n);
    }
  }

  // ----- The shape of a thread's work -----

  predicate LeavingBlock(f: seq<Stmt>, nr: nat) { |f| == 1 && f[0].Leaving? && f[0].n < nr }

  predicate Plain(i: Item, nr: nat) {
    match i
    case Do(s) => UserStmt(s)
    case Finally(f) => UserCode(f) || LeavingBlock(f, nr)
    case Handler(f) => UserCode(f)
    case Resume(_) => true
    case CallEnd => true
  }

  predicate AllPlain(items: seq<Item>, nr: nat) { forall i :: i in items ==> Plain(i, nr) }

  /** The protected body of an operation, before its try block is entered. */
  predicate Protected(i: Item, nr: nat) {
    i.Do? && i.s.TryFinally? && UserCode(i.s.body) && LeavingBlock(i.s.fin, nr)
  }

  /** The sentinel's own statements stand only at the very front of a thread's work. */
  predicate Shaped(th: Thread, nr: nat) {
    || AllPlain(th.todo, nr)
    || (th.mode == Normal && |th.todo| >= 1 && AllPlain(th.todo[1..], nr)
        && (Protected(th.todo[0], nr) || (th.todo[0].Do? && LeavingBlock([th.todo[0].s], nr))))
    || Waiting(th, nr)
  }

  predicate Waiting(th: Thread, nr: nat) {
    && th.mode == Normal && |th.todo| >= 2 && AllPlain(th.todo[2..], nr)
    && th.todo[0].Do? && th.todo[0].s.Entering? && th.todo[0].s.n < nr
    && Protected(th.todo[1], nr) && th.todo[1].s.fin == [Leaving(th.todo[0].s.n)]
  }

  // ----- One step -----

  /** The counter of the operation a step enters or leaves, and no other, changes. */
  ghost predicate Balanced(th: Thread, active: seq<int>, th': Thread, active': seq<int>) {
    |active'| == |active|
    && forall n :: 0 <= n < |active| ==> active'[n] - active[n] == Unfinished(th', n) - Unfinished(th, n)
  }

  lemma {:induction false} PlainDoAll(ss: seq<Stmt>, nr: nat)
    requires UserCode(ss)
    ensures AllPlain(DoAll(ss), nr)
  {
    forall i | i in DoAll(ss) ensures Plain(i, nr) {
      var k :| 0 <= k < |DoAll(ss)| && DoAll(ss)[k] == i;
      assert ss[k] in ss;
    }
  }

  lemma {:induction false} PlainConcat(a: seq<Item>, b: seq<Item>, nr: nat)
    requires AllPlain(a, nr) && AllPlain(b, nr)
    ensures AllPlain(a + b, nr)
  {
  }

  /** Plain work does not begin with the sentinel's calls, so all of it counts. */
  lemma {:induction false} PlainUnfinished(th: Thread, nr: nat, n: nat)
    requires AllPlain(th.todo, nr)
    ensures Unfinished(th, n) == OwedBy(th.todo, n)
  {
    if |th.todo| >= 2 { assert th.todo[0] in th.todo; }
  }

  /** New plain work in front of the rest. */
  lemma {:induction false} PlainWork(front: seq<Item>, rest: seq<Item>, m: Mode, nr: nat, n: nat)
    requires AllPlain(front, nr) && AllPlain(rest, nr)
    ensures Shaped(Thread(front + rest, m), nr)
    ensures Unfinished(Thread(front + rest, m), n) == OwedBy(front, n) + OwedBy(rest, n)
  {
    hide Plain, Owes;
    PlainConcat(front, rest, nr);
    PlainUnfinished(Thread(front + rest, m), nr, n);
    OwedByConcat(front, rest, n);
  }

  lemma {:induction false} OwedByOne(i: Item, n: nat)
    ensures OwedBy([i], n) == Owes(i, n)
  {
    hide Owes;
    assert OwedBy([i][1..], n) == 0;
  }

  /** A block of user statements, an item behind it, and the rest. */
  lemma {:induction false} BlockWork(ss: seq<Stmt>, i: Item, rest: seq<Item>, m: Mode, nr: nat, n: nat)
    requires UserCode(ss) && Plain(i, nr) && AllPlain(rest, nr)
    ensures Shaped(Thread(DoAll(ss) + [i] + rest, m), nr)
    ensures Unfinished(Thread(DoAll(ss) + [i] + rest, m), n) == Owes(i, n) + OwedBy(rest, n)
  {
    hide Plain, Owes, Shaped;
    PlainDoAll(ss, nr);
    PlainConcat(DoAll(ss), [i], nr);
    PlainWork(DoAll(ss) + [i], rest, m, nr, n);
    OwedByConcat(DoAll(ss), [i], n);
    UserCodeOwesNothing(ss, n);
    OwedByOne(i, n);
  }

  lemma {:induction false} CodeWork(ss: seq<Stmt>, rest: seq<Item>, m: Mode, nr: nat, n: nat)
    requires UserCode(ss) && AllPlain(rest, nr)
    ensures Shaped(Thread(DoAll(ss) + rest, m), nr)
    ensures Unfinished(Thread(DoAll(ss) + rest, m), n) == OwedBy(rest, n)
  {
    hide Plain, Owes, Shaped;
    PlainDoAll(ss, nr);
    PlainWork(DoAll(ss), rest, m, nr, n);
    UserCodeOwesNothing(ss, n);
  }

  lemma {:induction false} RestWork(rest: seq<Item>, m: Mode, nr: nat, n: nat)
    requires AllPlain(rest, nr)
    ensures Shaped(Thread(rest, m), nr) && Unfinished(Thread(rest, m), n) == OwedBy(rest, n)
  {
    hide Plain;
    PlainUnfinished(Thread(rest, m), nr, n);
  }

  lemma {:induction false} HeadOwes(todo: seq<Item>, n: nat)
    requires todo != []
    ensures OwedBy(todo, n) == Owes(todo[0], n) + OwedBy(todo[1..], n)
  {
    hide Owes;
  }

  /** A user statement neither enters nor leaves; a call prepares to enter. */
  lemma {:induction false} UserStepBalances(p: Program, th: Thread, active: seq<int>, choice: bool,
                                            g: GuardExpr -> bool)
    requires CodeOk(p, |active|)
    requires th.mode == Normal && th.todo != [] && AllPlain(th.todo, |active|) && th.todo[0].Do?
    ensures var r := Next(p, th, active, choice, g);
            r.Moves? && r.active == active && Shaped(r.th, |active|) && Balanced(th, active, r.th, active)
  {
    hide CodeOk, EvaluatePP, Shaped, Owes, AllPlain;
    var nr := |active|;
    var s, rest := th.todo[0].s, th.todo[1..];
    UserHead(th, nr);
    var r := Next(p, th, active, choice, g);
    forall n: nat | n < nr ensures Unfinished(th, n) == OwedBy(rest, n) {
      PlainUnfinished(th, nr, n);
      HeadOwes(th.todo, n);
      UserStmtOwesNothing(s, n);
    }
    forall n: nat ensures Shaped(r.th, nr) && Unfinished(r.th, n) == OwedBy(rest, n) {
      UserStepWork(p, th, active, choice, g, n);
    }
    UserStepWork(p, th, active, choice, g, 0);
    UserMoves(p, th, active, choice, g);
  }

  lemma {:induction false} UserHead(th: Thread, nr: nat)
    requires th.todo != [] && AllPlain(th.todo, nr) && th.todo[0].Do?
    ensures UserStmt(th.todo[0].s) && AllPlain(th.todo[1..], nr)
  {
    assert th.todo[0] in th.todo;
    assert Plain(th.todo[0], nr);
  }

  lemma {:induction false} UserMoves(p: Program, th: Thread, active: seq<int>, choice: bool, g: GuardExpr -> bool)
    requires th.mode == Normal && th.todo != [] && th.todo[0].Do? && UserStmt(th.todo[0].s)
    ensures Next(p, th, active, choice, g).Moves? && Next(p, th, active, choice, g).active == active
  {
    hide EvaluatePP, DoAll;
  }

  lemma {:induction false} UserStepWork(p: Program, th: Thread, active: seq<int>, choice: bool, g: GuardExpr -> bool,
                                        n: nat)
    requires CodeOk(p, |active|)
    requires th.mode == Normal && th.todo != [] && th.todo[0].Do?
    requires UserStmt(th.todo[0].s) && AllPlain(th.todo[1..], |active|)
    ensures var r := Next(p, th, active, choice, g);
            r.Moves? && Shaped(r.th, |active|) && Unfinished(r.th, n) == OwedBy(th.todo[1..], n)
  {
    hide CodeOk, EvaluatePP, Shaped, Owes, AllPlain, DoAll, Unfinished, OwedBy;
    var nr := |active|;
    var s, rest := th.todo[0].s, th.todo[1..];
    match s
    case Skip => RestWork(rest, Normal, nr, n);
    case Throw => RestWork(rest, Throwing, nr, n);
    case Return => RestWork(rest, Returning, nr, n);
    case Call(op) =>
      if op in p.bodies && op in p.operConst { CallWork(p, op, rest, nr, n); } else { RestWork(rest, Normal, nr, n); }
    case TryFinally(b, f) =>
      BlockWork(b, Finally(f), rest, Normal, nr, n);
      UserFinallyOwesNothing(f, n);
    case TryCatch(b, f) =>
      BlockWork(b, Handler(f), rest, Normal, nr, n);
      assert Owes(Handler(f), n) == 0 by { HandlerOwesNothing(f, n); }
    case Choose(a, b) => CodeWork(if choice then a else b, rest, Normal, nr, n);
    case Loop(b) =>
      if choice {
        BlockWork(b, Do(s), rest, Normal, nr, n);
        UserStmtOwesNothing(s, n);
      } else {
        RestWork(rest, Normal, nr, n);
      }
  }

  lemma {:induction false} HandlerOwesNothing(f: seq<Stmt>, n: nat)
    ensures Owes(Handler(f), n) == 0
  {
  }

  lemma {:induction false} UserFinallyOwesNothing(f: seq<Stmt>, n: nat)
    requires UserCode(f)
    ensures Owes(Finally(f), n) == 0
  {
    UserStmtOwesNothing(TryFinally([], f), n);
  }

  /** A called operation waits to enter; nothing is owed yet. */
  lemma {:induction false} CallWork(p: Program, op: OpName, rest: seq<Item>, nr: nat, n: nat)
    requires CodeOk(p, nr) && op in p.bodies && op in p.operConst && AllPlain(rest, nr)
    ensures var th := Thread(DoAll(GenConcOper(p.operConst[op], p.bodies[op])) + [CallEnd] + rest, Normal);
            Shaped(th, nr) && Unfinished(th, n) == OwedBy(rest, n)
  {
    hide Plain;
    var k := p.operConst[op];
    var code := GenConcOper(k, p.bodies[op]);
    assert DoAll(code) == [Do(code[0]), Do(code[1])];
    var th := Thread(DoAll(code) + [CallEnd] + rest, Normal);
    assert th.todo[2..] == [CallEnd] + rest;
    CallEndPlain(nr);
    PlainConcat([CallEnd], rest, nr);
    assert LeavingBlock([Leaving(k)], nr);
    assert Waiting(th, nr);
    OwedByConcat([CallEnd], rest, n);
    OwedByOne(CallEnd, n);
  }

  lemma {:induction false} CallEndPlain(nr: nat)
    ensures Plain(CallEnd, nr)
  {
  }

  /** Statements of the sentinel: entering counts one call more, leaving one less. */
  lemma {:induction false} SentinelStepBalances(p: Program, th: Thread, active: seq<int>, choice: bool,
                                                g: GuardExpr -> bool)
    requires Shaped(th, |active|) && !AllPlain(th.todo, |active|)
    ensures var r := Next(p, th, active, choice, g);
            r.Moves? ==> Shaped(r.th, |active|) && Balanced(th, active, r.th, r.active)
  {
    hide EvaluatePP, Plain, AllPlain, Shaped;
    var nr := |active|;
    ShapeCases(th, nr);
    if Waiting(th, nr) {
      EnterBalances(p, th, active, choice, g);
    } else if Protected(th.todo[0], nr) {
      TryBalances(p, th, active, choice, g);
    } else {
      LeaveBalances(p, th, active, choice, g);
    }
  }

  lemma {:induction false} ShapeCases(th: Thread, nr: nat)
    requires Shaped(th, nr) && !AllPlain(th.todo, nr)
    ensures th.mode == Normal && th.todo != [] && th.todo[0].Do?
    ensures Waiting(th, nr)
         || (AllPlain(th.todo[1..], nr) && (Protected(th.todo[0], nr) || LeavingBlock([th.todo[0].s], nr)))
  {
  }

  lemma {:induction false} EnterBalances(p: Program, th: Thread, active: seq<int>, choice: bool, g: GuardExpr -> bool)
    requires Waiting(th, |active|)
    ensures var r := Next(p, th, active, choice, g);
            r.Moves? ==> Shaped(r.th, |active|) && Balanced(th, active, r.th, r.active)
  {
    hide EvaluatePP, Plain, AllPlain;
    var k, rest := th.todo[0].s.n, th.todo[1..];
    assert rest[1..] == th.todo[2..];
    forall n: nat ensures Unfinished(Thread(rest, Normal), n) == Unfinished(th, n) + if n == k then 1 else 0 {
      HeadOwes(rest, n);
    }
  }

  lemma {:induction false} LeaveBalances(p: Program, th: Thread, active: seq<int>, choice: bool, g: GuardExpr -> bool)
    requires th.mode == Normal && th.todo != [] && AllPlain(th.todo[1..], |active|)
    requires th.todo[0].Do? && LeavingBlock([th.todo[0].s], |active|)
    ensures var r := Next(p, th, active, choice, g);
            r.Moves? ==> Shaped(r.th, |active|) && Balanced(th, active, r.th, r.active)
  {
    hide EvaluatePP, Plain, AllPlain, Shaped;
    var k, rest := th.todo[0].s.n, th.todo[1..];
    forall n: nat ensures Shaped(Thread(rest, Normal), |active|)
      && Unfinished(th, n) == Unfinished(Thread(rest, Normal), n) + if n == k then 1 else 0
    {
      HeadOwes(th.todo, n);
      RestWork(rest, Normal, |active|, n);
    }
    assert Unfinished(th, 0) == Unfinished(Thread(rest, Normal), 0) + if 0 == k then 1 else 0;
  }

  lemma {:induction false} TryBalances(p: Program, th: Thread, active: seq<int>, choice: bool, g: GuardExpr -> bool)
    requires th.mode == Normal && th.todo != [] && AllPlain(th.todo[1..], |active|)
    requires Protected(th.todo[0], |active|)
    ensures var r := Next(p, th, active, choice, g);
            r.Moves? ==> Shaped(r.th, |active|) && Balanced(th, active, r.th, r.active)
  {
    hide EvaluatePP, AllPlain, Shaped, UserCode, UserStmt, DoAll;
    var s, rest := th.todo[0].s, th.todo[1..];
    var th' := Thread(DoAll(s.body) + [Finally(s.fin)] + rest, Normal);
    forall n: nat ensures Shaped(th', |active|) && Unfinished(th', n) == Unfinished(th, n) {
      HeadOwes(th.todo, n);
      BlockWork(s.body, Finally(s.fin), rest, Normal, |active|, n);
    }
    assert Unfinished(th', 0) == Unfinished(th, 0);
  }

  /** A finally block about to run: what it owed is still owed. */
  lemma {:induction false} FinallyWork(f: seq<Stmt>, rest: seq<Item>, nr: nat, n: nat)
    requires Plain(Finally(f), nr) && AllPlain(rest, nr)
    ensures Shaped(Thread(DoAll(f) + rest, Normal), nr)
    ensures Unfinished(Thread(DoAll(f) + rest, Normal), n) == Owes(Finally(f), n) + OwedBy(rest, n)
  {
    hide AllPlain, UserStmt;
    if LeavingBlock(f, nr) {
      assert DoAll(f) + rest == [Do(f[0])] + rest;
      assert ([Do(f[0])] + rest)[1..] == rest;
      assert f == [f[0]];
      HeadOwes([Do(f[0])] + rest, n);
    } else {
      CodeWork(f, rest, Normal, nr, n);
      UserFinallyOwesNothing(f, n);
    }
  }

  /** Running into a pending item, or unwinding through one, moves no counter. */
  lemma {:induction false} ItemStepBalances(p: Program, th: Thread, active: seq<int>, choice: bool,
                                            g: GuardExpr -> bool)
    requires th.todo != [] && AllPlain(th.todo, |active|) && !(th.mode == Normal && th.todo[0].Do?)
    ensures var r := Next(p, th, active, choice, g);
            r.Moves? && r.active == active && Shaped(r.th, |active|) && Balanced(th, active, r.th, active)
  {
    hide EvaluatePP, AllPlain, Shaped, Plain, DoAll, Owes, Unfinished, OwedBy;
    ItemMoves(p, th, active, choice, g);
    var r := Next(p, th, active, choice, g);
    forall n: nat ensures Shaped(r.th, |active|) && Unfinished(r.th, n) == Unfinished(th, n) {
      ItemStepWork(p, th, active, choice, g, n);
    }
    assert Unfinished(r.th, 0) == Unfinished(th, 0);
  }

  lemma {:induction false} ItemMoves(p: Program, th: Thread, active: seq<int>, choice: bool, g: GuardExpr -> bool)
    requires th.todo != [] && !(th.mode == Normal && th.todo[0].Do?)
    ensures var r := Next(p, th, active, choice, g); r.Moves? && r.active == active
  {
    hide DoAll;
  }

  lemma {:induction false} PlainHead(todo: seq<Item>, nr: nat)
    requires todo != [] && AllPlain(todo, nr)
    ensures Plain(todo[0], nr) && AllPlain(todo[1..], nr)
  {
    hide Plain;
    assert todo[0] in todo;
  }

  lemma {:induction false} ItemStepWork(p: Program, th: Thread, active: seq<int>, choice: bool, g: GuardExpr -> bool,
                                        n: nat)
    requires th.todo != [] && AllPlain(th.todo, |active|) && !(th.mode == Normal && th.todo[0].Do?)
    ensures var r := Next(p, th, active, choice, g);
            r.Moves? && Shaped(r.th, |active|) && Unfinished(r.th, n) == Unfinished(th, n)
  {
    hide EvaluatePP, AllPlain, Shaped, DoAll, Unfinished, OwedBy, UserStmt, UserCode, LeavingBlock;
    var nr, rest := |active|, th.todo[1..];
    PlainUnfinished(th, nr, n);
    HeadOwes(th.todo, n);
    PlainHead(th.todo, nr);
    match th.todo[0]
    case Finally(f) =>
      if th.mode == Normal {
        FinallyWork(f, rest, nr, n);
      } else {
        var resume := [Resume(th.mode)] + rest;
        ResumePlain(th.mode, rest, nr, n);
        FinallyWork(f, resume, nr, n);
        assert DoAll(f) + [Resume(th.mode)] + rest == DoAll(f) + resume;
      }
    case Handler(f) =>
      if th.mode == Throwing { CodeWork(f, rest, Normal, nr, n); } else { RestWork(rest, th.mode, nr, n); }
    case Resume(m) => RestWork(rest, if th.mode == Normal then m else th.mode, nr, n);
    case CallEnd => RestWork(rest, if th.mode == Throwing then Throwing else Normal, nr, n);
    case Do(s) =>
      RestWork(rest, th.mode, nr, n);
      UserStmtOwesNothing(s, n);
  }

  lemma {:induction false} ResumePlain(m: Mode, rest: seq<Item>, nr: nat, n: nat)
    requires AllPlain(rest, nr)
    ensures AllPlain([Resume(m)] + rest, nr) && OwedBy([Resume(m)] + rest, n) == OwedBy(rest, n)
  {
    hide AllPlain;
    assert AllPlain([Resume(m)], nr) by { OnlyResume(m, nr); }
    PlainConcat([Resume(m)], rest, nr);
    OwedByConcat([Resume(m)], rest, n);
    OwedByOne(Resume(m), n);
  }

  lemma {:induction false} OnlyResume(m: Mode, nr: nat)
    ensures AllPlain([Resume(m)], nr)
  {
  }

  /** Every step keeps the shape and moves the counters with the unfinished calls. */
  lemma {:induction false} StepBalances(p: Program, th: Thread, active: seq<int>, choice: bool, g: GuardExpr -> bool)
    requires CodeOk(p, |active|) && Shaped(th, |active|)
    ensures var r := Next(p, th, active, choice, g);
            r.Moves? ==> Shaped(r.th, |active|) && Balanced(th, active, r.th, r.active)
  {
    if th.todo != [] {
      if !AllPlain(th.todo, |active|) {
        hide CodeOk, Next, Shaped, Balanced;
        SentinelStepBalances(p, th, active, choice, g);
      } else if th.mode == Normal && th.todo[0].Do? {
        hide CodeOk, Next, Shaped, Balanced;
        UserStepBalances(p, th, active, choice, g);
      } else {
        hide CodeOk, Next, Shaped, Balanced;
        ItemStepBalances(p, th, active, choice, g);
      }
    }
  }

  // ----- The invariant of every run -----

  /** Operations that exclude each other are not active together, and one that excludes itself only once. */
  ghost predicate Exclusive(h: Hierarchy, c: string, active: seq<int>)
    requires WellFormed(h) && c in h.defs
  {
    forall x, y :: Excludes(h, c, x, y) ==> Apart(h, x, y, active)
  }

  ghost predicate Apart(h: Hierarchy, x: OpName, y: OpName, active: seq<int>)
    requires WellFormed(h)
  {
    if x == y then CountAt(active, NumberOf(h, x)) <= 1
    else CountAt(active, NumberOf(h, x)) == 0 || CountAt(active, NumberOf(h, y)) == 0
  }

  /** The counters are the numbers of unfinished calls. */
  ghost predicate Counted(s: State) {
    forall n :: 0 <= n < |s.active| ==> s.active[n] == UnfinishedCalls(s.threads, n)
  }

  ghost predicate AllShaped(s: State) { forall t :: 0 <= t < |s.threads| ==> Shaped(s.threads[t], |s.active|) }

  lemma {:induction false} StartHasNoCalls(ths: seq<Thread>, n: nat)
    requires forall t :: 0 <= t < |ths| ==> forall i :: i in ths[t].todo ==> i.Do? && UserStmt(i.s)
    ensures UnfinishedCalls(ths, n) == 0
  {
    hide UserStmt;
    if ths != [] {
      StartThreadOwesNothing(ths[0].todo, n);
      StartThreadPlain(ths[0], 0);
      PlainUnfinished(ths[0], 0, n);
      StartHasNoCalls(ths[1..], n);
    }
  }

  lemma {:induction false} StartThreadOwesNothing(todo: seq<Item>, n: nat)
    requires forall i :: i in todo ==> i.Do? && UserStmt(i.s)
    ensures OwedBy(todo, n) == 0
  {
    if todo != [] {
      UserStmtOwesNothing(todo[0].s, n);
      StartThreadOwesNothing(todo[1..], n);
    }
  }

  lemma {:induction false} StartThreadPlain(th: Thread, nr: nat)
    requires forall i :: i in th.todo ==> i.Do? && UserStmt(i.s)
    ensures AllPlain(th.todo, nr) && Shaped(th, nr)
  {
    hide UserStmt;
  }

  lemma {:induction false} StartCounted(s: State, nr: nat)
    requires Start(s, nr)
    ensures AllShaped(s) && Counted(s)
  {
    hide UserStmt, Shaped;
    forall t | 0 <= t < |s.threads| ensures Shaped(s.threads[t], |s.active|) {
      StartThreadPlain(s.threads[t], |s.active|);
    }
    forall n | 0 <= n < |s.active| ensures s.active[n] == UnfinishedCalls(s.threads, n) {
      StartHasNoCalls(s.threads, n);
    }
  }

  /** A step keeps the counters equal to the unfinished calls. */
  lemma {:induction false} StepCounted(p: Program, s: State, s': State, r: Outcome, t: nat, choice: bool,
                                       g: GuardExpr -> bool)
    requires CodeOk(p, |s.active|) && AllShaped(s) && Counted(s)
    requires t < |s.threads| && r == Next(p, s.threads[t], s.active, choice, g) && StepOf(s, s', r, t)
    ensures |s'.active| == |s.active| && AllShaped(s') && Counted(s')
  {
    hide CodeOk, Next, Shaped, Unfinished, UnfinishedCalls;
    StepBalances(p, s.threads[t], s.active, choice, g);
    forall n | 0 <= n < |s'.active| ensures s'.active[n] == UnfinishedCalls(s'.threads, n) {
      UnfinishedUpdate(s.threads, t, r.th, n);
    }
  }

  // ----- Exclusion -----

  /** The evaluatePP an object inherits is right for the object's own class. */
  lemma {:induction false} InheritedCases(h: Hierarchy, c: string, cases: seq<Case>)
    requires WellFormed(h) && c in h.defs && RightCases(h, Emitter(h, c), cases)
    ensures RightCases(h, c, cases)
  {
    hide WellFormed, RightCases, AccMutex, AccPreds;
    InheritedGuardIsRight(h, c);
    SameTablesSameCases(h, Emitter(h, c), c, cases);
  }

  lemma {:induction false} SameTablesSameCases(h: Hierarchy, d: string, c: string, cases: seq<Case>)
    requires WellFormed(h) && c in h.defs && d in h.defs && RightCases(h, d, cases)
    requires AccMutex(h, d) == AccMutex(h, c) && AccPreds(h, d) == AccPreds(h, c)
    ensures RightCases(h, c, cases)
  {
    hide WellFormed, AccMutex, AccPreds, NumberOf, NumbersOf, Guards, HasCase, DistinctCases;
    assert TableNames(h, c) == TableNames(h, d);
    forall i | 0 <= i < |cases| ensures CaseOfSome(h, c, TableNames(h, c), cases[i]) {
      assert CaseOfSome(h, d, TableNames(h, d), cases[i]);
      var x :| x in TableNames(h, d) && RightCase(h, d, x, cases[i]);
      assert RightCase(h, c, x, cases[i]);
    }
  }

  /** The bodies are those of operations of class c, under their constants, and the guards are the class's. */
  ghost predicate ObjectOf(h: Hierarchy, c: string, p: Program) {
    && WellFormed(h) && c in h.defs && NamesResolve(h) && RightCases(h, c, p.cases)
    && forall n :: n in p.bodies ==>
         OperOf(h, c, n) && UserCode(p.bodies[n]) && n in p.operConst && p.operConst[n] == NumberOf(h, n)
  }

  lemma {:induction false} ObjectClass(h: Hierarchy, c: string, p: Program)
    requires ObjectOf(h, c, p)
    ensures WellFormed(h) && c in h.defs && NamesResolve(h) && CodeOk(p, NrFunctions(h, c))
  {
    hide WellFormed, NamesResolve, RightCases, NrFunctions, UserCode;
    forall n | n in p.bodies ensures p.operConst[n] < NrFunctions(h, c) { OperAtNumber(h, c, n); }
  }

  /** The operation that evaluatePP let in: its guards hold, and whatever excludes it is idle. */
  lemma {:induction false} WhoEnters(h: Hierarchy, c: string, p: Program, active: seq<int>, k: nat,
                                     g: GuardExpr -> bool) returns (x: OpName)
    requires ObjectOf(h, c, p) && k < NrFunctions(h, c) && NonNegative(active)
    requires EvaluatePP(p.cases, k, active, g)
    ensures OperOf(h, c, x) && NumberOf(h, x) == k && MayEnter(h, c, x, active, g)
  {
    NumberOfOperAt(h, c, k);
    x := OperAt(h, c, k);
    assert NumberOf(h, x) == k;
    hide WellFormed, NrFunctions, EvaluatePP, RightCases, MayEnter, NamesResolve, OperAt, CodeOk;
    EvaluatePPMeans(h, c, p.cases, x, active, g);
  }

  lemma {:induction false} EnterKeepsExclusion(h: Hierarchy, c: string, p: Program, active: seq<int>, k: nat,
                                               g: GuardExpr -> bool)
    requires ObjectOf(h, c, p) && |active| == NrFunctions(h, c) && k < |active| && NonNegative(active)
    requires EvaluatePP(p.cases, k, active, g) && Exclusive(h, c, active)
    ensures Exclusive(h, c, active[k := active[k] + 1])
  {
    hide ObjectOf, WellFormed, NamesResolve, NrFunctions, EvaluatePP, Exclusive, NumberOf, OperOf, MayEnter, CodeOk;
    ObjectClass(h, c, p);
    var x := WhoEnters(h, c, p, active, k, g);
    ExclusiveAfterEnter(h, c, x, active, g);
  }

  lemma {:induction false} ExclusiveAfterEnter(h: Hierarchy, c: string, x: OpName, active: seq<int>,
                                               g: GuardExpr -> bool)
    requires WellFormed(h) && c in h.defs && NamesResolve(h) && OperOf(h, c, x) && NumberOf(h, x) < |active|
    requires MayEnter(h, c, x, active, g) && Exclusive(h, c, active)
    ensures Exclusive(h, c, active[NumberOf(h, x) := active[NumberOf(h, x)] + 1])
  {
    hide WellFormed, NamesResolve, Excludes, NumberOf, OperOf, Apart, MayEnter;
    var after := active[NumberOf(h, x) := active[NumberOf(h, x)] + 1];
    forall a, b | Excludes(h, c, a, b) ensures Apart(h, a, b, after) {
      PairAfterEnter(h, c, x, a, b, active, g);
    }
  }

  lemma {:induction false} PairAfterEnter(h: Hierarchy, c: string, x: OpName, a: OpName, b: OpName, active: seq<int>,
                                          g: GuardExpr -> bool)
    requires WellFormed(h) && c in h.defs && NamesResolve(h) && OperOf(h, c, x) && NumberOf(h, x) < |active|
    requires MayEnter(h, c, x, active, g) && Excludes(h, c, a, b) && Apart(h, a, b, active)
    ensures Apart(h, a, b, active[NumberOf(h, x) := active[NumberOf(h, x)] + 1])
  {
    hide WellFormed, Excludes, NumberOf, NamesResolve, OperOf, Declares;
    ExcludesBoth(h, c, a, b);
    if a != x { OtherNumber(h, c, x, a); }
    if b != x { OtherNumber(h, c, x, b); }
    ApartAfterEnter(h, x, a, b, active);
  }

  lemma {:induction false} ExcludesBoth(h: Hierarchy, c: string, x: OpName, y: OpName)
    requires WellFormed(h) && c in h.defs && Excludes(h, c, x, y)
    ensures Excludes(h, c, y, x) && Excludes(h, c, x, x) && Excludes(h, c, y, y)
  {
    hide WellFormed, Lists, Chain;
    var d :| d in Chain(h, c) && d in h.defs && Together(h, d, x, y);
    assert Together(h, d, y, x) && Together(h, d, x, x) && Together(h, d, y, y);
  }

  lemma {:induction false} ExcludedAreOpers(h: Hierarchy, c: string, x: OpName, y: OpName)
    requires WellFormed(h) && c in h.defs && NamesResolve(h) && Excludes(h, c, x, y)
    ensures OperOf(h, c, x) && OperOf(h, c, y)
  {
    hide WellFormed, NamesResolve, Excludes, OperOf, AccMutex, AccPreds;
    ExcludesBoth(h, c, x, y);
    MutexIsUnionOfChain(h, c, x, x);
    MutexIsUnionOfChain(h, c, x, y);
    TablesNameOpers(h, c, x);
  }

  lemma {:induction false} ApartAfterEnter(h: Hierarchy, x: OpName, a: OpName, b: OpName, active: seq<int>)
    requires WellFormed(h) && NumberOf(h, x) < |active| && Apart(h, a, b, active)
    requires a == x || b == x ==> CountAt(active, NumberOf(h, a)) == 0 && CountAt(active, NumberOf(h, b)) == 0
    requires (a != x ==> NumberOf(h, a) != NumberOf(h, x)) && (b != x ==> NumberOf(h, b) != NumberOf(h, x))
    ensures Apart(h, a, b, active[NumberOf(h, x) := active[NumberOf(h, x)] + 1])
  {
    hide WellFormed, NumberOf;
  }

  lemma {:induction false} OtherNumber(h: Hierarchy, c: string, x: OpName, y: OpName)
    requires WellFormed(h) && c in h.defs && NamesResolve(h) && OperOf(h, c, x) && x != y && Excludes(h, c, y, y)
    ensures NumberOf(h, x) != NumberOf(h, y)
  {
    hide WellFormed, NamesResolve, AccMutex, AccPreds, NumberOf, OperOf, Excludes;
    MutexIsUnionOfChain(h, c, y, y);
    DifferentNumbers(h, c, x, y);
  }

  lemma {:induction false} LeaveKeepsExclusion(h: Hierarchy, c: string, active: seq<int>, k: nat)
    requires WellFormed(h) && c in h.defs && k < |active| && active[k] >= 1 && NonNegative(active)
            && Exclusive(h, c, active)
    ensures Exclusive(h, c, active[k := active[k] - 1])
  {
    hide WellFormed, Excludes, NumberOf;
    var after := active[k := active[k] - 1];
    forall a, b | Excludes(h, c, a, b) ensures Apart(h, a, b, after) {
      assert Apart(h, a, b, active);
    }
  }

  /** The counters after a step: unchanged, one call fewer, or one more that evaluatePP let in. */
  ghost predicate CounterStep(p: Program, active: seq<int>, after: seq<int>, g: GuardExpr -> bool) {
    || after == active
    || exists k: nat ::
         k < |active|
         && (Decremented(active, after, k) || (Incremented(active, after, k) && EvaluatePP(p.cases, k, active, g)))
  }

  ghost predicate Decremented(active: seq<int>, after: seq<int>, k: nat)
    requires k < |active|
  {
    after == active[k := active[k] - 1]
  }

  ghost predicate Incremented(active: seq<int>, after: seq<int>, k: nat)
    requires k < |active|
  {
    after == active[k := active[k] + 1]
  }

  lemma {:induction false} CountersMove(p: Program, th: Thread, active: seq<int>, choice: bool, g: GuardExpr -> bool)
    ensures var r := Next(p, th, active, choice, g); r.Moves? ==> CounterStep(p, active, r.active, g)
  {
    hide EvaluatePP, DoAll;
    if th.todo != [] && th.mode == Normal && th.todo[0].Do? {
      var s := th.todo[0].s;
      var r := Next(p, th, active, choice, g);
      if s.Entering? && r.Moves? { assert Incremented(active, r.active, s.n); }
      if s.Leaving? && r.Moves? { assert Decremented(active, r.active, s.n); }
      if !s.Entering? && !s.Leaving? { OtherStatements(p, th, active, choice, g); }
    } else if th.todo != [] {
      ItemMoves(p, th, active, choice, g);
    }
  }

  lemma {:induction false} OtherStatements(p: Program, th: Thread, active: seq<int>, choice: bool, g: GuardExpr -> bool)
    requires th.todo != [] && th.mode == Normal && th.todo[0].Do?
    requires !th.todo[0].s.Entering? && !th.todo[0].s.Leaving?
    ensures var r := Next(p, th, active, choice, g); r.Moves? && r.active == active
  {
    hide EvaluatePP, DoAll;
  }

  lemma {:induction false} CountersStayExclusive(h: Hierarchy, c: string, p: Program, s: State, s': State,
                                                 g: GuardExpr -> bool)
    requires ObjectOf(h, c, p) && |s.active| == |s'.active| == NrFunctions(h, c)
    requires Counted(s) && Counted(s') && Exclusive(h, c, s.active) && CounterStep(p, s.active, s'.active, g)
    ensures Exclusive(h, c, s'.active)
  {
    hide ObjectOf, WellFormed, NamesResolve, NrFunctions, Exclusive, UnfinishedCalls, EvaluatePP, CodeOk;
    ObjectClass(h, c, p);
    if s'.active != s.active {
      var k: nat :| k < |s.active|
        && (Decremented(s.active, s'.active, k)
           || (Incremented(s.active, s'.active, k) && EvaluatePP(p.cases, k, s.active, g)));
      if Decremented(s.active, s'.active, k) {
        assert s'.active[k] >= 0;
        LeaveKeepsExclusion(h, c, s.active, k);
      } else {
        EnterKeepsExclusion(h, c, p, s.active, k, g);
      }
    }
  }

  // ----- The invariant of every run -----

  ghost predicate Inv(h: Hierarchy, c: string, s: State)
    requires WellFormed(h) && c in h.defs
  {
    |s.active| == NrFunctions(h, c) && AllShaped(s) && Counted(s) && Exclusive(h, c, s.active)
  }

  lemma {:induction false} StartInv(h: Hierarchy, c: string, s: State)
    requires WellFormed(h) && c in h.defs && Start(s, NrFunctions(h, c))
    ensures Inv(h, c, s)
  {
    hide WellFormed, NrFunctions, Excludes, NumberOf, AllShaped, Counted;
    StartCounted(s, NrFunctions(h, c));
  }

  lemma {:induction false} StepInv(h: Hierarchy, c: string, p: Program, s: State, s': State)
    requires ObjectOf(h, c, p) && Inv(h, c, s) && Step(p, s, s')
    ensures Inv(h, c, s')
  {
    hide ObjectOf, WellFormed, NamesResolve, NrFunctions, Next, AllShaped, Exclusive, Counted, CounterStep, CodeOk;
    ObjectClass(h, c, p);
    var t: nat, choice: bool, g: GuardExpr -> bool :|
      t < |s.threads| && StepOf(s, s', Next(p, s.threads[t], s.active, choice, g), t);
    var r := Next(p, s.threads[t], s.active, choice, g);
    StepCounted(p, s, s', r, t, choice, g);
    CountersMove(p, s.threads[t], s.active, choice, g);
    CountersStayExclusive(h, c, p, s, s', g);
  }

  // ----- Main results -----

  lemma {:induction false} InvInEveryRun(h: Hierarchy, c: string, p: Program, run: seq<State>, i: nat)
    requires ObjectOf(h, c, p) && Run(p, NrFunctions(h, c), run) && i < |run|
    ensures Inv(h, c, run[i])
  {
    hide ObjectOf, WellFormed, NamesResolve, NrFunctions, Inv, Step, Start, CodeOk;
    ObjectClass(h, c, p);
    if i == 0 {
      StartInv(h, c, run[0]);
    } else {
      InvInEveryRun(h, c, p, run, i - 1);
      assert Step(p, run[i - 1], run[i - 1 + 1]);
      StepInv(h, c, p, run[i - 1], run[i]);
    }
  }

  /** Unfinished calls of an operation, by name. */
  ghost function Running(h: Hierarchy, s: State, x: OpName): nat
    requires WellFormed(h)
  {
    UnfinishedCalls(s.threads, NumberOf(h, x))
  }

  /**
   In every reachable state each counter is the number of unfinished calls, however calls end,
   and operations that a mutex clause of the class or a superclass lists together are never
   active together, nor one of them twice.
   */
  lemma {:induction false} MutualExclusion(h: Hierarchy, c: string, p: Program, run: seq<State>, i: nat, x: OpName,
                                           y: OpName)
    requires ObjectOf(h, c, p) && Run(p, NrFunctions(h, c), run) && i < |run|
    ensures |run[i].active| == NrFunctions(h, c) && Counted(run[i])
    ensures Excludes(h, c, x, y) ==>
              && OperOf(h, c, x) && OperOf(h, c, y)
              && Running(h, run[i], x) <= 1
              && (x != y ==> Running(h, run[i], x) == 0 || Running(h, run[i], y) == 0)
  {
    hide WellFormed, NamesResolve, RightCases, Excludes, Run, UnfinishedCalls, NrFunctions, Exclusive, AllShaped,
        UserCode;
    InvInEveryRun(h, c, p, run, i);
    if Excludes(h, c, x, y) { NeverTogether(h, c, run[i], x, y); }
  }

  lemma {:induction false} NeverTogether(h: Hierarchy, c: string, s: State, x: OpName, y: OpName)
    requires WellFormed(h) && c in h.defs && NamesResolve(h) && Excludes(h, c, x, y)
    requires |s.active| == NrFunctions(h, c) && Counted(s) && Exclusive(h, c, s.active)
    ensures OperOf(h, c, x) && OperOf(h, c, y) && Running(h, s, x) <= 1
    ensures x != y ==> Running(h, s, x) == 0 || Running(h, s, y) == 0
  {
    ExcludesBoth(h, c, x, y);
    ExcludedAreOpers(h, c, x, y);
    OperAtNumber(h, c, x);
    OperAtNumber(h, c, y);
    assert NumberOf(h, x) == Number(h, x) && NumberOf(h, y) == Number(h, y);
    hide WellFormed, NamesResolve, Excludes, UnfinishedCalls, NrFunctions, Number, NumberOf, OperOf;
    assert Apart(h, x, y, s.active) && Apart(h, x, x, s.active);
  }

  lemma {:induction false} NothingLeftToDo(ths: seq<Thread>, n: nat)
    requires forall t :: 0 <= t < |ths| ==> ths[t].todo == []
    ensures UnfinishedCalls(ths, n) == 0
  {
    if ths != [] { NothingLeftToDo(ths[1..], n); }
  }

  /** When all threads are done every counter is back to zero, also after exceptions. */
  lemma {:induction false} AllLeft(h: Hierarchy, c: string, p: Program, run: seq<State>, i: nat, n: nat)
    requires ObjectOf(h, c, p) && Run(p, NrFunctions(h, c), run) && i < |run| && n < |run[i].active|
    requires forall t :: 0 <= t < |run[i].threads| ==> run[i].threads[t].todo == []
    ensures run[i].active[n] == 0
  {
    hide WellFormed, Run, UnfinishedCalls, Shaped, Exclusive, NrFunctions, RightCases, NamesResolve, CodeOk;
    InvInEveryRun(h, c, p, run, i);
    NothingLeftToDo(run[i].threads, n);
  }
}
