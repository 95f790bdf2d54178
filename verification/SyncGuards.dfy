/**
 The generated evaluatePP: a switch on the operation number whose cases hold the
 accumulated permission predicates and, from the mutex table, that none of the
 excluded operations is active.
 */
module SyncGuards {
  import opened SyncTables
  import opened SyncScan

  /** NoneActive: the sum of these active counters is zero. */
  datatype Cond = Guard(g: GuardExpr) | NoneActive(numbers: seq<nat>)

  datatype Case = Case(fnr: nat, conds: seq<Cond>)

  /** evaluatePP missing means that the base class's method is inherited. */
  datatype Emitted = Inherited | Switch(cases: seq<Case>)

  // ----- Synchronisation definitions name operations of the class -----

  ghost predicate NamesResolve(h: Hierarchy)
    requires WellFormed(h)
  {
    forall c :: c in h.defs ==>
      && (forall o :: o in h.defs[c].perms ==> Known(h, c, o))
      && (forall m, o :: m in h.defs[c].mutexes && m.Ops? && o in m.ops ==> Known(h, c, o))
  }

  lemma {:induction false} KnownResolves(h: Hierarchy, c: string, o: string, x: OpName)
    requires WellFormed(h) && c in h.defs && Known(h, c, o) && Resolves(h, c, o, x)
    ensures OperOf(h, c, x)
  {
    QualifyResolves(h, c, o, x);
  }

  lemma {:induction false} OwnTablesNameOpers(h: Hierarchy, c: string, x: OpName)
    requires WellFormed(h) && c in h.defs && NamesResolve(h)
    ensures x in OwnMutex(h, c) || x in OwnPreds(h, c) ==> OperOf(h, c, x)
    ensures forall y :: y in SetAt(OwnMutex(h, c), x) ==> OperOf(h, c, y)
  {
    hide Known, Resolves, OwnMutex, OwnPreds, OperOf, WellFormed;
    forall y, m | m in h.defs[c].mutexes && Lists(h, c, m, y) ensures OperOf(h, c, y) {
      var o :| Resolves(h, c, o, y) && if m.AllOps? then Known(h, c, o) else o in m.ops;
      KnownResolves(h, c, o, y);
    }
    OwnMutexIsTogether(h, c, x, x);
    forall y | y in SetAt(OwnMutex(h, c), x) ensures OperOf(h, c, y) { OwnMutexIsTogether(h, c, x, y); }
    OwnPredsAreDeclared(h, c, x);
    if e :| Declares(h, c, x, e) {
      var o :| o in h.defs[c].perms && Resolves(h, c, o, x) && e == GuardExpr(h.defs[c].perms[o], c);
      KnownResolves(h, c, o, x);
    }
  }

  /** Every operation in an accumulated table is an operation of the object, so it has a number. */
  lemma {:induction false} TablesNameOpers(h: Hierarchy, c: string, x: OpName)
    requires WellFormed(h) && c in h.defs && NamesResolve(h)
    ensures x in AccMutex(h, c) || x in AccPreds(h, c) ==> OperOf(h, c, x)
    ensures forall y :: y in SetAt(AccMutex(h, c), x) ==> OperOf(h, c, y)
    decreases Depth(h, c)
  {
    hide OwnMutex, OwnPreds;
    OwnTablesNameOpers(h, c, x);
    if h.supers[c] != [] {
      TablesNameOpers(h, Base(h, c), x);
      ChainStep(h, c);
    }
  }

  // ----- What the switch must be -----

  /** The operation constant; only asked of operations. */
  ghost function NumberOf(h: Hierarchy, n: OpName): nat
    requires WellFormed(h)
  {
    if IsOper(h, n) then Number(h, n) else 0
  }

  function Guards(gs: seq<GuardExpr>): seq<Cond> {
    seq(|gs|, i requires 0 <= i < |gs| => Guard(gs[i]))
  }

  ghost predicate NumbersOf(h: Hierarchy, ops: set<OpName>, numbers: seq<nat>)
    requires WellFormed(h)
  {
    forall k :: k in numbers <==> exists o :: o in ops && NumberOf(h, o) == k
  }

  /** The operations that have guards or exclusions. */
  function TableNames(h: Hierarchy, c: string): set<OpName>
    requires WellFormed(h) && c in h.defs
  {
    AccPreds(h, c).Keys + AccMutex(h, c).Keys
  }

  /** The guards of operation x and then its exclusions, if it has any. */
  ghost predicate RightConds(h: Hierarchy, c: string, x: OpName, conds: seq<Cond>)
    requires WellFormed(h) && c in h.defs
  {
    var guards := Guards(SeqAt(AccPreds(h, c), x));
    if x !in AccMutex(h, c) then conds == guards
    else exists numbers :: conds == guards + [NoneActive(numbers)] && NumbersOf(h, AccMutex(h, c)[x], numbers)
  }

  ghost predicate RightCase(h: Hierarchy, c: string, x: OpName, k: Case)
    requires WellFormed(h) && c in h.defs
  {
    k.fnr == NumberOf(h, x) && RightConds(h, c, x, k.conds)
  }

  ghost predicate CaseOfSome(h: Hierarchy, c: string, xs: set<OpName>, k: Case)
    requires WellFormed(h) && c in h.defs
  {
    exists x :: x in xs && RightCase(h, c, x, k)
  }

  ghost predicate HasCase(cases: seq<Case>, fnr: nat) { exists i :: 0 <= i < |cases| && cases[i].fnr == fnr }

  ghost predicate DistinctCases(cases: seq<Case>)
  {
    forall i, j :: 0 <= i < j < |cases| ==> cases[i].fnr != cases[j].fnr
  }

  /** A case for each of these operations and no others, under different labels. */
  ghost predicate CasesFor(h: Hierarchy, c: string, cases: seq<Case>, xs: set<OpName>)
    requires WellFormed(h) && c in h.defs
  {
    && (forall i :: 0 <= i < |cases| ==> CaseOfSome(h, c, xs, cases[i]))
    && (forall x :: x in xs ==> HasCase(cases, NumberOf(h, x)))
    && DistinctCases(cases)
  }

  ghost predicate RightCases(h: Hierarchy, c: string, cases: seq<Case>)
    requires WellFormed(h) && c in h.defs
  {
    CasesFor(h, c, cases, TableNames(h, c))
  }

  // ----- Its evaluation -----

  /** An active counter; asked only of legal numbers. */
  function CountAt(active: seq<int>, k: nat): int { if k < |active| then active[k] else 0 }

  function Sum(active: seq<int>, numbers: seq<nat>): int {
    if numbers == [] then 0 else CountAt(active, numbers[0]) + Sum(active, numbers[1..])
  }

  ghost predicate CondHolds(cond: Cond, active: seq<int>, g: GuardExpr -> bool) {
    match cond
    case Guard(e) => g(e)
    case NoneActive(numbers) => Sum(active, numbers) == 0
  }

  ghost predicate CondsHold(conds: seq<Cond>, active: seq<int>, g: GuardExpr -> bool) {
    forall i :: 0 <= i < |conds| ==> CondHolds(conds[i], active, g)
  }

  /** The method: the case with the label, if there is one, and otherwise true. */
  ghost predicate EvaluatePP(cases: seq<Case>, fnr: nat, active: seq<int>, g: GuardExpr -> bool) {
    if cases == [] then true
    else if cases[0].fnr == fnr then CondsHold(cases[0].conds, active, g)
    else EvaluatePP(cases[1..], fnr, active, g)
  }

  lemma {:induction false} EvaluatesCase(cases: seq<Case>, i: nat, active: seq<int>, g: GuardExpr -> bool)
    requires i < |cases| && DistinctCases(cases)
    ensures EvaluatePP(cases, cases[i].fnr, active, g) <==> CondsHold(cases[i].conds, active, g)
  {
    hide CondsHold;
    if i > 0 {
      assert cases[1..][i - 1] == cases[i] && cases[0].fnr != cases[i].fnr;
      EvaluatesCase(cases[1..], i - 1, active, g);
    }
  }

  lemma {:induction false} EvaluatesDefault(cases: seq<Case>, fnr: nat, active: seq<int>, g: GuardExpr -> bool)
    requires !HasCase(cases, fnr)
    ensures EvaluatePP(cases, fnr, active, g)
  {
    if cases != [] {
      assert cases[0].fnr != fnr && forall i :: 0 <= i < |cases| - 1 ==> cases[1..][i] == cases[i + 1];
      EvaluatesDefault(cases[1..], fnr, active, g);
    }
  }

  ghost predicate NonNegative(active: seq<int>) { forall k :: 0 <= k < |active| ==> active[k] >= 0 }

  lemma {:induction false} SumIsZero(active: seq<int>, numbers: seq<nat>)
    requires NonNegative(active)
    ensures Sum(active, numbers) >= 0
    ensures Sum(active, numbers) == 0 <==> forall k :: k in numbers ==> CountAt(active, k) == 0
  {
    if numbers != [] {
      SumIsZero(active, numbers[1..]);
      assert numbers[0] in numbers && forall k :: k in numbers ==> k == numbers[0] || k in numbers[1..];
    }
  }

  /** All permission predicates written for x in the class and its superclasses hold, and no
      operation that a mutex clause there lists beside x is active. */
  ghost predicate MayEnter(h: Hierarchy, c: string, x: OpName, active: seq<int>, g: GuardExpr -> bool)
    requires WellFormed(h) && c in h.defs
  {
    && (forall d, e :: d in Chain(h, c) && d in h.defs && Declares(h, d, x, e) ==> g(e))
    && (forall y :: Excludes(h, c, x, y) ==> CountAt(active, NumberOf(h, y)) == 0)
  }

  lemma {:induction false} GuardsHold(gs: seq<GuardExpr>, active: seq<int>, g: GuardExpr -> bool)
    ensures CondsHold(Guards(gs), active, g) <==> forall e :: e in gs ==> g(e)
  {
    assert forall j :: 0 <= j < |gs| ==> Guards(gs)[j] == Guard(gs[j]);
    if CondsHold(Guards(gs), active, g) {
      forall e | e in gs ensures g(e) {
        var j :| 0 <= j < |gs| && gs[j] == e;
        assert CondHolds(Guards(gs)[j], active, g);
      }
    }
  }

  lemma {:induction false} CondsSnoc(conds: seq<Cond>, cond: Cond, active: seq<int>, g: GuardExpr -> bool)
    ensures CondsHold(conds + [cond], active, g) <==> CondsHold(conds, active, g) && CondHolds(cond, active, g)
  {
    hide CondHolds;
    var all := conds + [cond];
    assert all[|conds|] == cond && forall j :: 0 <= j < |conds| ==> all[j] == conds[j];
    if CondsHold(all, active, g) {
      assert CondHolds(all[|conds|], active, g);
      assert forall j :: 0 <= j < |conds| ==> CondHolds(all[j], active, g);
    }
  }

  lemma {:induction false} NoneActiveMeans(h: Hierarchy, ops: set<OpName>, numbers: seq<nat>, active: seq<int>,
                                           g: GuardExpr -> bool)
    requires WellFormed(h) && NumbersOf(h, ops, numbers) && NonNegative(active)
    ensures CondHolds(NoneActive(numbers), active, g) <==> forall y :: y in ops ==> CountAt(active, NumberOf(h, y)) == 0
  {
    hide WellFormed, Sum, NumberOf, CountAt;
    SumIsZero(active, numbers);
  }

  lemma {:induction false} CondsMean(h: Hierarchy, c: string, x: OpName, conds: seq<Cond>, active: seq<int>,
                                     g: GuardExpr -> bool)
    requires WellFormed(h) && c in h.defs && RightConds(h, c, x, conds) && NonNegative(active)
    ensures CondsHold(conds, active, g) <==> MayEnter(h, c, x, active, g)
  {
    hide WellFormed, AccMutex, AccPreds, Guards, NumberOf, NumbersOf, CondsHold, CondHolds, CountAt, Excludes, Declares;
    PredsAreUnionOfChain(h, c, x);
    forall y ensures y in SetAt(AccMutex(h, c), x) <==> Excludes(h, c, x, y) { MutexIsUnionOfChain(h, c, x, y); }
    var guards := Guards(SeqAt(AccPreds(h, c), x));
    GuardsHold(SeqAt(AccPreds(h, c), x), active, g);
    if x in AccMutex(h, c) {
      var numbers :| conds == guards + [NoneActive(numbers)] && NumbersOf(h, AccMutex(h, c)[x], numbers);
      CondsSnoc(guards, NoneActive(numbers), active, g);
      NoneActiveMeans(h, AccMutex(h, c)[x], numbers, active, g);
    }
  }

  /** The emitted switch lets x enter exactly when its accumulated guards and exclusions allow it. */
  lemma {:induction false} EvaluatePPMeans(h: Hierarchy, c: string, cases: seq<Case>, x: OpName, active: seq<int>,
                                           g: GuardExpr -> bool)
    requires WellFormed(h) && c in h.defs && NamesResolve(h) && RightCases(h, c, cases) && OperOf(h, c, x)
    requires NonNegative(active)
    ensures EvaluatePP(cases, Number(h, x), active, g) <==> MayEnter(h, c, x, active, g)
  {
    assert NumberOf(h, x) == Number(h, x);
    hide WellFormed, NamesResolve, RightConds, MayEnter, CondsHold, EvaluatePP, NumberOf, TableNames;
    if HasCase(cases, NumberOf(h, x)) {
      var i :| 0 <= i < |cases| && cases[i].fnr == NumberOf(h, x);
      assert CaseOfSome(h, c, TableNames(h, c), cases[i]);
      var y :| y in TableNames(h, c) && RightCase(h, c, y, cases[i]);
      if x != y { DifferentNumbers(h, c, x, y); }
      EvaluatesCase(cases, i, active, g);
      CondsMean(h, c, x, cases[i].conds, active, g);
    } else {
      EvaluatesDefault(cases, NumberOf(h, x), active, g);
      NothingToCheck(h, c, x, active, g);
    }
  }

  lemma {:induction false} DifferentNumbers(h: Hierarchy, c: string, x: OpName, y: OpName)
    requires WellFormed(h) && c in h.defs && NamesResolve(h) && x != y
    requires (OperOf(h, c, x) || x in TableNames(h, c)) && y in TableNames(h, c)
    ensures NumberOf(h, x) != NumberOf(h, y)
  {
    TablesNameOpers(h, c, x);
    TablesNameOpers(h, c, y);
    hide WellFormed, NamesResolve, Number, NrFunctions;
    NumbersPartition(h, c, x, y, 0);
  }

  lemma {:induction false} NothingToCheck(h: Hierarchy, c: string, x: OpName, active: seq<int>, g: GuardExpr -> bool)
    requires WellFormed(h) && c in h.defs && x !in TableNames(h, c)
    ensures MayEnter(h, c, x, active, g)
  {
    hide WellFormed, AccMutex, AccPreds, Excludes, Declares;
    PredsAreUnionOfChain(h, c, x);
    forall y ensures !Excludes(h, c, x, y) { MutexIsUnionOfChain(h, c, x, y); }
  }

  // ----- The generator -----

  ghost predicate Constants(h: Hierarchy, operConst: map<OpName, nat>)
    requires WellFormed(h)
  {
    forall n: OpName :: IsOper(h, n) ==> n in operConst && operConst[n] == Number(h, n)
  }

  /** GenEvaluatePP for class c, from its table entry and the operation constants. */
  method GenEvaluatePP(ghost h: Hierarchy, c: string, info: ClassInfo, operConst: map<OpName, nat>) returns (r: Emitted)
    requires WellFormed(h) && c in h.defs && NamesResolve(h) && info == InfoOf(h, c) && Constants(h, operConst)
    ensures r.Inherited? <==> !Emits(h, c)
    ensures r.Switch? ==> RightCases(h, c, r.cases)
  {
    if !info.newGuards && !info.topClass {
      return Inherited;
    }
    hide WellFormed, NamesResolve, AccMutex, AccPreds, Constants, CasesFor, RightCase;
    var swst: seq<Case> := [];
    var toDo := info.accPermPred.Keys + info.mutexTable.Keys;
    assert toDo == TableNames(h, c);
    NoCases(h, c);
    assert TableNames(h, c) - toDo == {};
    hide TableNames;
    while toDo != {}
      invariant toDo <= TableNames(h, c)
      invariant CasesFor(h, c, swst, TableNames(h, c) - toDo)
    {
      var nm :| nm in toDo;
      var k := GenCase(h, c, info, operConst, nm);
      MoreCases(h, c, swst, TableNames(h, c) - toDo, nm, k);
      swst := swst + [k];
      assert TableNames(h, c) - (toDo - {nm}) == (TableNames(h, c) - toDo) + {nm};
      toDo := toDo - {nm};
    }
    assert TableNames(h, c) - toDo == TableNames(h, c);
    r := Switch(swst);
  }

  lemma {:induction false} NoCases(h: Hierarchy, c: string)
    requires WellFormed(h) && c in h.defs
    ensures CasesFor(h, c, [], {})
  {
  }

  lemma {:induction false} MoreCases(h: Hierarchy, c: string, cases: seq<Case>, xs: set<OpName>, nm: OpName, k: Case)
    requires WellFormed(h) && c in h.defs && NamesResolve(h) && xs <= TableNames(h, c) && nm in TableNames(h, c)
            && nm !in xs
    requires CasesFor(h, c, cases, xs) && RightCase(h, c, nm, k)
    ensures CasesFor(h, c, cases + [k], xs + {nm})
  {
    hide WellFormed, NamesResolve, TableNames, RightConds, NumberOf, HasCase, CaseOfSome, DistinctCases;
    var all := cases + [k];
    forall i | 0 <= i < |cases| ensures cases[i].fnr != k.fnr && CaseOfSome(h, c, xs + {nm}, cases[i]) {
      OtherCase(h, c, xs, nm, cases[i]);
    }
    assert CaseOfSome(h, c, xs + {nm}, k) by { OneOfThem(h, c, xs + {nm}, nm, k); }
    assert forall i :: 0 <= i < |all| ==> all[i] == if i < |cases| then cases[i] else k;
    CaseAdded(cases, k);
  }

  lemma {:induction false} OtherCase(h: Hierarchy, c: string, xs: set<OpName>, nm: OpName, k: Case)
    requires WellFormed(h) && c in h.defs && NamesResolve(h) && xs <= TableNames(h, c) && nm in TableNames(h, c)
            && nm !in xs
    requires CaseOfSome(h, c, xs, k)
    ensures k.fnr != NumberOf(h, nm) && CaseOfSome(h, c, xs + {nm}, k)
  {
    hide WellFormed, NamesResolve, TableNames, RightConds, NumberOf;
    var x :| x in xs && RightCase(h, c, x, k);
    DifferentNumbers(h, c, x, nm);
    assert x in xs + {nm};
  }

  lemma {:induction false} OneOfThem(h: Hierarchy, c: string, xs: set<OpName>, x: OpName, k: Case)
    requires WellFormed(h) && c in h.defs && x in xs && RightCase(h, c, x, k)
    ensures CaseOfSome(h, c, xs, k)
  {
  }

  lemma {:induction false} CaseAdded(cases: seq<Case>, k: Case)
    requires DistinctCases(cases) && forall i :: 0 <= i < |cases| ==> cases[i].fnr != k.fnr
    ensures DistinctCases(cases + [k]) && HasCase(cases + [k], k.fnr)
    ensures forall fnr :: HasCase(cases, fnr) ==> HasCase(cases + [k], fnr)
  {
    var all := cases + [k];
    assert all[|cases|] == k;
    forall fnr | HasCase(cases, fnr) ensures HasCase(all, fnr) {
      var i :| 0 <= i < |cases| && cases[i].fnr == fnr;
      assert all[i].fnr == fnr;
    }
  }

  /** The guards of one operation with the exclusion clause appended. */
  method GenCase(ghost h: Hierarchy, c: string, info: ClassInfo, operConst: map<OpName, nat>, nm: OpName)
      returns (k: Case)
    requires WellFormed(h) && c in h.defs && NamesResolve(h) && nm in TableNames(h, c) && Constants(h, operConst)
    requires info.accPermPred == AccPreds(h, c) && info.mutexTable == AccMutex(h, c)
    ensures RightCase(h, c, nm, k)
  {
    ConstantsOfTables(h, c, nm, operConst);
    hide WellFormed, NamesResolve, AccMutex, AccPreds, NumberOf, Guards, NumbersOf, Constants;
    var conds := Guards(if nm in info.accPermPred then info.accPermPred[nm] else []);
    if nm in info.mutexTable {
      var numbers := GenActive(h, info.mutexTable[nm], operConst);
      conds := conds + [NoneActive(numbers)];
    }
    k := Case(operConst[nm], conds);
  }

  lemma {:induction false} ConstantsOfTables(h: Hierarchy, c: string, nm: OpName, operConst: map<OpName, nat>)
    requires WellFormed(h) && c in h.defs && NamesResolve(h) && nm in TableNames(h, c) && Constants(h, operConst)
    ensures nm in operConst && operConst[nm] == NumberOf(h, nm)
    ensures forall o :: o in SetAt(AccMutex(h, c), nm) ==> o in operConst && operConst[o] == NumberOf(h, o)
  {
    TablesNameOpers(h, c, nm);
    hide WellFormed, NamesResolve, AccMutex, AccPreds, Number;
  }

  /** The counters of an active expression. */
  method GenActive(ghost h: Hierarchy, elems: set<OpName>, operConst: map<OpName, nat>) returns (numbers: seq<nat>)
    requires WellFormed(h) && forall o :: o in elems ==> o in operConst && operConst[o] == NumberOf(h, o)
    ensures NumbersOf(h, elems, numbers)
  {
    hide WellFormed, NumberOf;
    numbers := [];
    var toDo := elems;
    while toDo != {}
      invariant toDo <= elems
      invariant forall k :: k in numbers <==> exists o :: o in elems - toDo && NumberOf(h, o) == k
    {
      var o :| o in toDo;
      numbers := numbers + [operConst[o]];
      toDo := toDo - {o};
    }
  }
}
