/**
 From the inheritance graph to running objects: the pass over superclasses gives the lists the
 synchronisation tables are built on, and the tables give every object an evaluatePP that
 excludes what they say.
 */
module SyncObjects {
  import opened SyncTables
  import opened SyncScan
  import opened SyncGuards
  import opened SyncProtocol
  import CH = ClassHierarchy

  /** Single inheritance without cycles, and every superclass is a class. */
  ghost predicate SingleInheritance(sup: CH.Supers) {
    CH.AllDefined(sup) && forall c :: c in sup ==> CH.Sound(sup, c) && |sup[c]| <= 1
  }

  lemma {:induction false} ListIsLinked(sup: CH.Supers, h: Hierarchy, c: string)
    requires c in sup && sup.Keys == h.supers.Keys == h.defs.Keys && CH.Linear(sup, h.supers, c)
    requires |sup[c]| <= 1 && (forall s :: s in sup[c] ==> s in sup) && NoRepeats(h.defs[c].opers)
    ensures Linked(h, c)
  {
    hide NoRepeats;
    if sup[c] != {} {
      var s :| s in sup[c];
      assert |sup[c] - {s}| == 0;
      assert sup[c] == {s};
    }
  }

  /** The lists that GenerateOrderedSupers leaves have the shape that the tables assume. */
  lemma {:induction false} ListsAreWellFormed(sup: CH.Supers, supers: map<string, seq<string>>, order: seq<string>,
                                              defs: map<string, ClassDef>)
    requires CH.ListedIn(sup, supers, order) && SingleInheritance(sup) && forall c :: c in sup ==> c in order
    requires sup.Keys == supers.Keys == defs.Keys && forall c :: c in defs ==> NoRepeats(defs[c].opers)
    ensures WellFormed(Hierarchy(defs, supers))
  {
    hide CH.ListsAncestors, CH.Linear, CH.Sound, NoRepeats, Linked;
    var h := Hierarchy(defs, supers);
    forall c | c in h.defs && c in h.supers ensures Linked(h, c) { ListIsLinked(sup, h, c); }
  }

  /** The pass over the inheritance graph, whose lists the synchronisation passes then use. */
  method OrderSupers(passes: CH.VdmCG, cg: VdmCG)
    requires passes.classVisitOrder == [] && passes.orderedSupers == map[] && SingleInheritance(passes.superClasses)
    requires cg.classDefs.Keys == passes.superClasses.Keys
    requires forall c :: c in cg.classDefs ==> NoRepeats(cg.classDefs[c].opers)
    modifies passes, cg`orderedSupers
    ensures cg.classDefs == old(cg.classDefs) && WellFormed(cg.H())
    ensures forall c, d :: c in cg.classDefs ==> (d in cg.orderedSupers[c] <==> CH.Ancestor(passes.superClasses, c, d))
  {
    hide CH.TopDown, CH.Linear, CH.Sound, NoRepeats, WellFormed, CH.Ancestor;
    passes.GenerateOrderedSupers();
    cg.orderedSupers := passes.orderedSupers;
    ListsAreWellFormed(passes.superClasses, passes.orderedSupers, passes.classVisitOrder, cg.classDefs);
    forall c | c in cg.classDefs
      ensures forall d :: d in cg.orderedSupers[c] <==> CH.Ancestor(passes.superClasses, c, d)
    {
      assert CH.ListsAncestors(passes.superClasses, passes.orderedSupers[c], c);
    }
  }

  lemma {:induction false} OperationsNumbered(h: Hierarchy, operConst: map<OpName, nat>)
    requires WellFormed(h) && NumbersRight(h, operConst, h.defs.Keys)
    ensures Constants(h, operConst)
    ensures forall n: OpName :: IsOper(h, n) ==> n in operConst && operConst[n] == NumberOf(h, n)
  {
  }

  /** The evaluatePP that class c has or inherits. */
  method FindEvaluatePP(cg: VdmCG, c: string) returns (cases: seq<Case>)
    requires WellFormed(cg.H()) && NamesResolve(cg.H()) && c in cg.classDefs
    requires InfosRight(cg.H(), cg.classInfos, cg.classDefs.Keys) && Constants(cg.H(), cg.operConst)
    ensures RightCases(cg.H(), Emitter(cg.H(), c), cases)
  {
    ghost var h := cg.H();
    hide NamesResolve, RightCases, AccMutex, AccPreds, NewGuards, Constants;
    var e := c;
    var emitted := GenEvaluatePP(h, e, cg.classInfos[e], cg.operConst);
    while emitted.Inherited?
      invariant e in h.defs && Emitter(h, e) == Emitter(h, c)
      invariant emitted.Inherited? <==> !Emits(h, e)
      invariant emitted.Switch? ==> RightCases(h, e, emitted.cases)
      decreases Depth(h, e)
    {
      assert Base(h, e) == cg.orderedSupers[e][0];
      e := cg.orderedSupers[e][0];
      emitted := GenEvaluatePP(h, e, cg.classInfos[e], cg.operConst);
    }
    cases := emitted.cases;
  }

  lemma {:induction false} ObjectMade(h: Hierarchy, c: string, bodies: map<OpName, seq<Stmt>>,
                                      operConst: map<OpName, nat>, cases: seq<Case>)
    requires WellFormed(h) && NamesResolve(h) && c in h.defs && RightCases(h, Emitter(h, c), cases)
    requires forall n :: n in bodies ==> OperOf(h, c, n) && UserCode(bodies[n])
    requires forall n: OpName :: IsOper(h, n) ==> n in operConst && operConst[n] == NumberOf(h, n)
    ensures ObjectOf(h, c, Program(bodies, operConst, cases))
  {
    hide WellFormed, NamesResolve, RightCases, UserCode, NumberOf;
    InheritedCases(h, c, cases);
  }

  /** All passes over the synchronisation definitions, and with them an object of class c whose
      operations have these bodies: MutualExclusion and AllLeft hold of every run of it. */
  method GenObject(cg: VdmCG, c: string, bodies: map<OpName, seq<Stmt>>) returns (p: Program)
    requires WellFormed(cg.H()) && NamesResolve(cg.H()) && c in cg.classDefs
    requires forall n :: n in bodies ==> OperOf(cg.H(), c, n) && UserCode(bodies[n])
    modifies cg
    ensures cg.H() == old(cg.H()) && p.bodies == bodies && ObjectOf(cg.H(), c, p)
  {
    ghost var h := cg.H();
    hide WellFormed, NamesResolve, RightCases, UserCode, Number, NumberOf, OperOf, InfosRight, NumbersRight, Emitter;
    hide Constants, ObjectOf;
    cg.ExtractGlobalInformation(cg.classDefs.Keys);
    assert cg.H() == h;
    OperationsNumbered(h, cg.operConst);
    var cases := FindEvaluatePP(cg, c);
    ObjectMade(h, c, bodies, cg.operConst, cases);
    p := Program(bodies, cg.operConst, cases);
  }
}
