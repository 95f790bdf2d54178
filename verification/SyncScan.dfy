/**
 The passes that fill the synchronisation tables: one over the inheritance lists and one,
 level by level, over the synchronisation definitions.
 */
module SyncScan {
  import opened SyncTables

  datatype ClassInfo = ClassInfo(topClass: bool, newGuards: bool, baseClasses: seq<string>,
                                 accPermPred: PredTable, mutexTable: MutexTable, nrOpers: nat, startCount: nat)

  /** What the passes must record of a class. */
  ghost function InfoOf(h: Hierarchy, c: string): ClassInfo
    requires WellFormed(h) && c in h.defs
  {
    ClassInfo(h.supers[c] == [], NewGuards(h, c), h.supers[c], AccPreds(h, c), AccMutex(h, c),
              |h.defs[c].opers|, StartCount(h, c))
  }

  ghost function Below(h: Hierarchy, cs: set<string>, level: nat): set<string>
  {
    set c | c in cs && Depth(h, c) < level
  }

  ghost function NotBelow(h: Hierarchy, cs: set<string>, level: nat): set<string>
  {
    set c | c in cs && Depth(h, c) >= level
  }

  ghost function AtDepth(h: Hierarchy, cs: set<string>, level: nat): set<string>
  {
    set c | c in cs && Depth(h, c) == level
  }

  ghost predicate ListedIn(h: Hierarchy, infos: map<string, ClassInfo>, cs: set<string>) {
    forall c :: c in cs ==> c in infos && c in h.defs && c in h.supers
                            && infos[c].baseClasses == h.supers[c] && infos[c].nrOpers == |h.defs[c].opers|
  }

  ghost predicate InfosRight(h: Hierarchy, infos: map<string, ClassInfo>, cs: set<string>)
    requires WellFormed(h) && cs <= h.defs.Keys
  {
    forall c :: c in cs ==> c in infos && infos[c] == InfoOf(h, c)
  }

  ghost predicate NumbersRight(h: Hierarchy, consts: map<OpName, nat>, cs: set<string>)
    requires WellFormed(h)
  {
    forall n: OpName :: n.cls in cs && IsOper(h, n) ==> n in consts && consts[n] == Number(h, n)
  }

  class VdmCG {
    var classDefs: map<string, ClassDef>
    var orderedSupers: map<string, seq<string>>
    var classInfos: map<string, ClassInfo>
    var operConst: map<OpName, nat>
    var defaultCast: string

    ghost function H(): Hierarchy
      reads this
    {
      Hierarchy(classDefs, orderedSupers)
    }

    /** The inheritance lists of these classes have been recorded. */
    ghost predicate Listed(cs: set<string>)
      reads this
    {
      ListedIn(H(), classInfos, cs)
    }

    /** The tables of these classes are complete and their operations numbered. */
    ghost predicate Scanned(cs: set<string>)
      requires WellFormed(H()) && cs <= classDefs.Keys
      reads this
    {
      InfosRight(H(), classInfos, cs) && NumbersRight(H(), operConst, cs)
    }

    method ExtractGlobalInformation(classes: set<string>)
      requires WellFormed(H()) && classes == classDefs.Keys
      modifies this`classInfos, this`operConst, this`defaultCast
      ensures WellFormed(H()) && Scanned(classes)
    {
      var toDo := classes;
      while toDo != {}
        invariant toDo <= classes && forall c :: c in classes - toDo ==> c in classInfos
      {
        var x :| x in toDo;
        classInfos := classInfos[x := ClassInfo(false, false, [], map[], map[], 0, 0)];
        toDo := toDo - {x};
      }
      ScanInheritance(classes);
      ScanSyncDefs(classes);
    }

    method ScanInheritance(classes: set<string>)
      requires classes == classDefs.Keys == orderedSupers.Keys && forall c :: c in classes ==> c in classInfos
      modifies this`classInfos
      ensures Listed(classes)
    {
      var toDo := classes;
      while toDo != {}
        invariant toDo <= classes && (forall c :: c in classes ==> c in classInfos) && Listed(classes - toDo)
      {
        var cl :| cl in toDo;
        var ci := classInfos[cl].(baseClasses := orderedSupers[cl]);
        ci := ci.(nrOpers := |classDefs[cl].opers|);
        classInfos := classInfos[cl := ci];
        toDo := toDo - {cl};
      }
    }

    method ScanSyncDefs(classes: set<string>)
      requires WellFormed(H()) && classes == classDefs.Keys && Listed(classes)
      modifies this`classInfos, this`operConst, this`defaultCast
      ensures WellFormed(H()) && Scanned(classes)
    {
      ghost var h := H();
      assert classes == h.supers.Keys && Scanned({});
      NoneBelowTop(h, classes);
      hide WellFormed, Scanned, Listed, Below, NotBelow, AtDepth;
      var level := 0;
      var toScan := classes;
      var startCount := 0;
      ghost var deepest: int := Deepest(h.supers, classes);
      while toScan != {}
        invariant H() == h && toScan == NotBelow(h, classes, level) && Listed(classes)
            && Scanned(Below(h, classes, level))
        decreases deepest + 1 - level
      {
        NextLevel(h, classes, level, deepest);
        var top := AtLevel(toScan, level);
        startCount := ScanTop(top, level, startCount, Below(h, classes, level));
        toScan := toScan - top;
        level := level + 1;
      }
      AllBelow(h, classes, level);
    }

    method AtLevel(toScan: set<string>, level: nat) returns (top: set<string>)
      requires toScan <= NotBelow(H(), classDefs.Keys, level) && Listed(classDefs.Keys)
      ensures top == AtDepth(H(), toScan, level)
    {
      top := {};
      var rest := toScan;
      while rest != {}
        invariant rest <= toScan && top == AtDepth(H(), toScan - rest, level)
      {
        var c :| c in rest;
        var cl := classInfos[c].baseClasses;
        if level == |cl| {
          top := top + {c};
        }
        rest := rest - {c};
      }
      assert toScan - rest == toScan;
    }

    /** The classes of one level, in any order. */
    method ScanTop(top: set<string>, level: nat, startCount0: nat, ghost done: set<string>) returns (startCount: nat)
      requires WellFormed(H()) && Listed(classDefs.Keys) && done <= classDefs.Keys && Scanned(done)
              && top <= classDefs.Keys
      requires forall c :: c in top ==> c !in done && Depth(H(), c) == level
      requires forall c :: c in classDefs && Depth(H(), c) < level ==> c in done
      modifies this`classInfos, this`operConst, this`defaultCast
      ensures Listed(classDefs.Keys) && Scanned(done + top)
    {
      ghost var h := H();
      hide WellFormed, Scanned, Listed;
      startCount := startCount0;
      var rest := top;
      assert done + (top - rest) == done;
      while rest != {}
        invariant H() == h && rest <= top && Listed(classDefs.Keys) && Scanned(done + (top - rest))
      {
        var cl :| cl in rest;
        if level > 0 { BaseIsShallower(h, cl); }
        startCount := ScanClass(cl, level, startCount, done + (top - rest));
        assert done + (top - (rest - {cl})) == done + (top - rest) + {cl};
        rest := rest - {cl};
      }
      assert done + (top - rest) == done + top;
    }

    /** One class, whose base class is complete. */
    method ScanClass(cl: string, level: nat, startCount0: nat, ghost done: set<string>) returns (startCount: nat)
      requires WellFormed(H()) && Listed(classDefs.Keys) && done <= classDefs.Keys && Scanned(done)
      requires cl in classDefs && cl !in done && level == Depth(H(), cl) && (level > 0 ==> Base(H(), cl) in done)
      modifies this`classInfos, this`operConst, this`defaultCast
      ensures Listed(classDefs.Keys) && Scanned(done + {cl})
    {
      ghost var h, consts := H(), operConst;
      hide WellFormed, AccMutex, AccPreds, StartCount, NewGuards, IndexOf, NumbersRight, InfosRight, ListedIn;
      defaultCast := cl;
      var guards, mutexTbl, hasNewGuards;
      guards, mutexTbl, hasNewGuards, startCount := ScanTables(level, startCount0, done);
      AssignOperConstants(startCount, classDefs[cl].opers);
      NumbersGrow(h, consts, operConst, cl, done);
      ListedHere(h, classInfos, cl);
      var isTopClass := orderedSupers[cl] == [];
      var ci := classInfos[cl].(topClass := isTopClass, newGuards := hasNewGuards);
      ci := ci.(accPermPred := guards, mutexTable := mutexTbl, startCount := startCount);
      InfosGrow(h, classInfos, ci, cl, done);
      classInfos := classInfos[cl := ci];
    }

    /** The class's own tables, merged with those of its base class. */
    method ScanTables(level: nat, startCount0: nat, ghost done: set<string>)
      returns (guards: PredTable, mutexTbl: MutexTable, hasNewGuards: bool, startCount: nat)
      requires WellFormed(H()) && Listed(classDefs.Keys) && done <= classDefs.Keys && Scanned(done)
      requires defaultCast in classDefs && level == Depth(H(), defaultCast)
      requires level > 0 ==> Base(H(), defaultCast) in done
      ensures guards == AccPreds(H(), defaultCast) && mutexTbl == AccMutex(H(), defaultCast)
      ensures hasNewGuards == NewGuards(H(), defaultCast) && startCount == StartCount(H(), defaultCast)
    {
      hide OwnMutex, OwnPreds, TableOf, GroupsOf, Qualify, NumbersRight;
      ghost var h := H();
      startCount := startCount0;
      var cls := classDefs[defaultCast];
      guards := QualifyGuards(cls.perms);
      mutexTbl := CreateMutexTable(cls.mutexes);
      OwnMutexIsTable(h, defaultCast);
      hasNewGuards := mutexTbl.Keys != {} || guards.Keys != {};
      AccUnfold(h, defaultCast);
      hide AccMutex, AccPreds, NewGuards, MergeMutex, MergePreds;
      if level == 0 {
        startCount := 0;
      } else {
        assert orderedSupers[defaultCast] != [] && HasBase(h, defaultCast);
        var directBase := classInfos[defaultCast].baseClasses[0];
        assert directBase == Base(h, defaultCast);
        if directBase in classInfos {
          var dci := classInfos[directBase];
          assert dci == InfoOf(h, directBase);
          guards := MergePermPreds(dci.accPermPred, guards);
          mutexTbl := MergeMutexTable(dci.mutexTable, mutexTbl);
          startCount := dci.startCount + dci.nrOpers;
        }
      }
    }

    method QualifyGuards(perms: map<string, string>) returns (guards: PredTable)
      requires WellFormed(H()) && defaultCast in classDefs && perms == classDefs[defaultCast].perms
              && Listed(classDefs.Keys)
      ensures guards == OwnPreds(H(), defaultCast)
    {
      hide DefiningClass;
      guards := map[];
      var specs := perms.Keys;
      while specs != {}
        invariant specs <= perms.Keys
        invariant guards == map o | o in perms.Keys - specs ::
            Qualify(H(), defaultCast, o) := [GuardExpr(perms[o], defaultCast)]
      {
        var spec :| spec in specs;
        var nm := QualifyName(spec);
        guards := guards[nm := [GuardExpr(perms[spec], defaultCast)]];
        specs := specs - {spec};
      }
    }

    method AssignOperConstants(s: nat, opers: seq<string>)
      requires WellFormed(H()) && defaultCast in classDefs && opers == classDefs[defaultCast].opers
              && Listed(classDefs.Keys)
      modifies this`operConst
      ensures forall n: OpName :: n.cls != defaultCast && n in old(operConst) ==>
                n in operConst && operConst[n] == old(operConst)[n]
      ensures forall n: OpName :: n.cls == defaultCast && n.op in opers ==>
                n in operConst && operConst[n] == s + IndexOf(opers, n.op)
    {
      var i := s;
      assert Linked(H(), defaultCast);
      for k := 0 to |opers|
        invariant i == s + k
        invariant forall n: OpName :: n.cls != defaultCast && n in old(operConst) ==>
                  n in operConst && operConst[n] == old(operConst)[n]
        invariant forall j :: 0 <= j < k ==>
                  OpName(defaultCast, opers[j]) in operConst && operConst[OpName(defaultCast, opers[j])] == s + j
      {
        var o := opers[k];
        var nm := QualifyName(o);
        assert nm == OpName(defaultCast, o);
        operConst := operConst[nm := i];
        i := i + 1;
      }
      forall n: OpName | n.cls == defaultCast && n.op in opers
        ensures n in operConst && operConst[n] == s + IndexOf(opers, n.op)
      {
        var j := IndexOf(opers, n.op);
        assert n == OpName(defaultCast, opers[j]);
      }
    }

    method QualifyName(opnm: string) returns (n: OpName)
      requires WellFormed(H()) && defaultCast in classDefs && Listed(classDefs.Keys)
      ensures n == Qualify(H(), defaultCast, opnm)
    {
      var cls := ClassDefiningOper(opnm);
      n := OpName(cls, opnm);
    }

    /** The search runs over the current class and its recorded base classes. */
    method ClassDefiningOper(opnm: string) returns (id: string)
      requires WellFormed(H()) && defaultCast in classDefs && Listed(classDefs.Keys)
      ensures id == DefiningClass(H(), Chain(H(), defaultCast), opnm)
      ensures Resolves(H(), defaultCast, opnm, OpName(id, opnm))
    {
      var searchList := [defaultCast] + classInfos[defaultCast].baseClasses;
      assert searchList == Chain(H(), defaultCast) && searchList[0..] == searchList;
      QualifyResolves(H(), defaultCast, opnm, Qualify(H(), defaultCast, opnm));
      var i := 0;
      while i < |searchList|
        invariant 0 <= i <= |searchList|
        invariant DefiningClass(H(), searchList, opnm) == DefiningClass(H(), searchList[i..], opnm)
      {
        assert searchList[i..][1..] == searchList[i + 1..];
        ChainDefined(H(), defaultCast, searchList[i]);
        if opnm in classDefs[searchList[i]].opers {
          return searchList[i];
        }
        i := i + 1;
      }
      return "";
    }

    method AllOperations(cname: string) returns (operSet: set<string>)
      requires WellFormed(H()) && cname in classDefs && Listed(classDefs.Keys)
      ensures operSet == OperNames(H(), Chain(H(), cname)) && forall o :: o in operSet <==> Known(H(), cname, o)
    {
      var searchList := [cname] + classInfos[cname].baseClasses;
      assert searchList == Chain(H(), cname) && searchList[0..] == searchList;
      operSet := {};
      for idx := 0 to |searchList|
        invariant operSet + OperNames(H(), searchList[idx..]) == OperNames(H(), searchList)
      {
        assert searchList[idx..][1..] == searchList[idx + 1..];
        ChainDefined(H(), cname, searchList[idx]);
        operSet := operSet + set o | o in classDefs[searchList[idx]].opers;
      }
      forall o ensures o in operSet <==> Known(H(), cname, o) { OperNamesAre(H(), searchList, o); }
    }

    method QualifyNames(ns: set<string>) returns (res: set<OpName>)
      requires WellFormed(H()) && defaultCast in classDefs && Listed(classDefs.Keys)
      ensures res == set o | o in ns :: Qualify(H(), defaultCast, o)
    {
      hide Qualify;
      res := {};
      var toDo := ns;
      while toDo != {}
        invariant toDo <= ns && res == set o | o in ns - toDo :: Qualify(H(), defaultCast, o)
      {
        var x :| x in toDo;
        var nm := QualifyName(x);
        res := res + {nm};
        toDo := toDo - {x};
      }
    }

    method CreateMutexTable(rawMutexDef: seq<Mutex>) returns (mutexTbl: MutexTable)
      requires WellFormed(H()) && defaultCast in classDefs && Listed(classDefs.Keys)
      ensures mutexTbl == TableOf(GroupsOf(H(), defaultCast, rawMutexDef))
    {
      hide Group, WellFormed, Listed, TableOf;
      var mutexDef: Groups := [];
      for k := 0 to |rawMutexDef|
        invariant |mutexDef| == k && forall i :: 0 <= i < k ==> mutexDef[i] == Group(H(), defaultCast, rawMutexDef[i])
      {
        var ops := QualifiedOps(rawMutexDef[k]);
        mutexDef := mutexDef + [ops];
      }
      GroupsAre(H(), defaultCast, rawMutexDef);
      assert mutexDef == GroupsOf(H(), defaultCast, rawMutexDef);
      mutexTbl := RelateAll(mutexDef);
    }

    method QualifiedOps(mutex: Mutex) returns (ops: set<OpName>)
      requires WellFormed(H()) && defaultCast in classDefs && Listed(classDefs.Keys)
      ensures ops == Group(H(), defaultCast, mutex)
    {
      hide Qualify, OperNames;
      var names;
      if mutex.AllOps? {
        names := AllOperations(defaultCast);
      } else {
        names := mutex.ops;
      }
      ops := QualifyNames(names);
    }
  }

  /** The inner loop: every operation of the group gets the whole group. */
  method Relate(t: MutexTable, group: set<OpName>) returns (r: MutexTable)
    requires group <= t.Keys
    ensures r.Keys == t.Keys && forall x :: x in t ==> r[x] == if x in group then t[x] + group else t[x]
  {
    r := t;
    var toDo := group;
    while toDo != {}
      invariant toDo <= group && r.Keys == t.Keys
      invariant forall x :: x in t ==> r[x] == if x in group - toDo then t[x] + group else t[x]
    {
      var op :| op in toDo;
      r := r[op := r[op] + group];
      toDo := toDo - {op};
    }
  }

  /** An empty row for every operation mentioned, and then group by group. */
  method RelateAll(mutexDef: Groups) returns (mutexTbl: MutexTable)
    ensures mutexTbl == TableOf(mutexDef)
  {
    hide Neighbours, AllOf;
    var dunion := {};
    NoGroups();
    assert mutexDef[..0] == [];
    for k := 0 to |mutexDef|
      invariant dunion == AllOf(mutexDef[..k])
    {
      AllOfSnoc(mutexDef, k);
      dunion := dunion + mutexDef[k];
    }
    assert mutexDef[..|mutexDef|] == mutexDef;
    mutexTbl := map x | x in dunion :: {};
    for k := 0 to |mutexDef|
      invariant mutexTbl.Keys == dunion
      invariant forall x :: x in dunion ==> mutexTbl[x] == Neighbours(mutexDef[..k], x)
    {
      AllOfHas(mutexDef, k);
      mutexTbl := Relate(mutexTbl, mutexDef[k]);
      forall x | x in dunion ensures mutexTbl[x] == Neighbours(mutexDef[..k + 1], x) { NeighboursSnoc(mutexDef, k, x); }
    }
  }

  method MergeMutexTable(base: MutexTable, derived: MutexTable) returns (combined: MutexTable)
    ensures combined == MergeMutex(base, derived)
  {
    combined := base;
    var toDo := derived.Keys;
    assert MutexMergedBut(base, derived, toDo, combined);
    while toDo != {}
      invariant toDo <= derived.Keys && MutexMergedBut(base, derived, toDo, combined)
    {
      var nm :| nm in toDo;
      MutexMergeStep(base, derived, toDo, combined, nm);
      combined := combined[nm := if nm in combined then combined[nm] + derived[nm] else derived[nm]];
      toDo := toDo - {nm};
    }
  }

  ghost predicate MutexMergedBut(base: MutexTable, derived: MutexTable, toDo: set<OpName>, combined: MutexTable) {
    && combined.Keys == base.Keys + (derived.Keys - toDo)
    && forall x :: x in combined ==> combined[x] == SetAt(base, x) + (if x in toDo then {} else SetAt(derived, x))
  }

  lemma {:induction false} MutexMergeStep(base: MutexTable, derived: MutexTable, toDo: set<OpName>,
                                          combined: MutexTable, nm: OpName)
    requires nm in toDo && toDo <= derived.Keys && MutexMergedBut(base, derived, toDo, combined)
    ensures MutexMergedBut(base, derived, toDo - {nm},
                           combined[nm := if nm in combined then combined[nm] + derived[nm] else derived[nm]])
  {
  }

  method MergePermPreds(base: PredTable, derived: PredTable) returns (combined: PredTable)
    ensures combined == MergePreds(base, derived)
  {
    combined := base;
    var toDo := derived.Keys;
    assert PredsMergedBut(base, derived, toDo, combined);
    while toDo != {}
      invariant toDo <= derived.Keys && PredsMergedBut(base, derived, toDo, combined)
    {
      var nm :| nm in toDo;
      PredsMergeStep(base, derived, toDo, combined, nm);
      combined := combined[nm := if nm in combined then combined[nm] + derived[nm] else derived[nm]];
      toDo := toDo - {nm};
    }
  }

  ghost predicate PredsMergedBut(base: PredTable, derived: PredTable, toDo: set<OpName>, combined: PredTable) {
    && combined.Keys == base.Keys + (derived.Keys - toDo)
    && forall x :: x in combined ==> combined[x] == SeqAt(base, x) + (if x in toDo then [] else SeqAt(derived, x))
  }

  lemma {:induction false} PredsMergeStep(base: PredTable, derived: PredTable, toDo: set<OpName>, combined: PredTable,
                                          nm: OpName)
    requires nm in toDo && toDo <= derived.Keys && PredsMergedBut(base, derived, toDo, combined)
    ensures PredsMergedBut(base, derived, toDo - {nm},
                           combined[nm := if nm in combined then combined[nm] + derived[nm] else derived[nm]])
  {
  }

  lemma {:induction false} NoGroups()
    ensures AllOf([]) == {} && forall x :: Neighbours([], x) == {}
  {
  }

  lemma {:induction false} AllOfSnoc(gs: Groups, k: nat)
    requires k < |gs|
    ensures AllOf(gs[..k + 1]) == AllOf(gs[..k]) + gs[k]
  {
    hide AllOf;
    forall x ensures x in AllOf(gs[..k + 1]) <==> x in AllOf(gs[..k]) + gs[k] {
      InAllOf(gs[..k + 1], x);
      InAllOf(gs[..k], x);
      assert forall i :: 0 <= i < k ==> gs[..k + 1][i] == gs[..k][i];
      assert gs[..k + 1][k] == gs[k];
    }
  }

  lemma {:induction false} AllOfHas(gs: Groups, k: nat)
    requires k < |gs|
    ensures gs[k] <= AllOf(gs)
  {
    hide AllOf;
    forall x | x in gs[k] ensures x in AllOf(gs) { InAllOf(gs, x); }
  }

  lemma {:induction false} NeighboursSnoc(gs: Groups, k: nat, x: OpName)
    requires k < |gs|
    ensures Neighbours(gs[..k + 1], x) == Neighbours(gs[..k], x) + (if x in gs[k] then gs[k] else {})
  {
    hide Neighbours;
    var a, b := Neighbours(gs[..k + 1], x), Neighbours(gs[..k], x) + (if x in gs[k] then gs[k] else {});
    forall y ensures y in a <==> y in b {
      InNeighbours(gs[..k + 1], x, y);
      InNeighbours(gs[..k], x, y);
      assert forall i :: 0 <= i < k ==> gs[..k + 1][i] == gs[..k][i];
      assert gs[..k + 1][k] == gs[k];
    }
  }

  lemma {:induction false} ListedHere(h: Hierarchy, infos: map<string, ClassInfo>, cl: string)
    requires WellFormed(h) && cl in h.defs && ListedIn(h, infos, h.defs.Keys)
    ensures cl in h.supers && cl in infos && infos[cl].baseClasses == h.supers[cl]
            && infos[cl].nrOpers == |h.defs[cl].opers|
  {
  }

  lemma {:induction false} InfosGrow(h: Hierarchy, infos: map<string, ClassInfo>, ci: ClassInfo, cl: string,
                                     done: set<string>)
    requires WellFormed(h) && cl in h.defs && done <= h.defs.Keys && cl !in done && InfosRight(h, infos, done)
    requires ci == InfoOf(h, cl) && ListedIn(h, infos, h.defs.Keys)
    ensures InfosRight(h, infos[cl := ci], done + {cl}) && ListedIn(h, infos[cl := ci], h.defs.Keys)
  {
    hide AccMutex, AccPreds, StartCount, NewGuards;
  }

  lemma {:induction false} NumbersGrow(h: Hierarchy, before: map<OpName, nat>, after: map<OpName, nat>, cl: string,
                                       done: set<string>)
    requires WellFormed(h) && cl in h.defs && cl !in done && NumbersRight(h, before, done)
    requires forall n: OpName :: n.cls != cl && n in before ==> n in after && after[n] == before[n]
    requires forall n: OpName :: n.cls == cl && n.op in h.defs[cl].opers ==>
               n in after && after[n] == StartCount(h, cl) + IndexOf(h.defs[cl].opers, n.op)
    ensures NumbersRight(h, after, done + {cl})
  {
    hide WellFormed, StartCount, IndexOf;
  }

  lemma {:induction false} NoneBelowTop(h: Hierarchy, cs: set<string>)
    ensures Below(h, cs, 0) == {} && NotBelow(h, cs, 0) == cs
  {
  }

  lemma {:induction false} AllBelow(h: Hierarchy, cs: set<string>, level: nat)
    requires NotBelow(h, cs, level) == {}
    ensures Below(h, cs, level) == cs
  {
    forall c | c in cs ensures c in Below(h, cs, level) { assert c !in NotBelow(h, cs, level); }
  }

  lemma {:induction false} NextLevel(h: Hierarchy, cs: set<string>, level: nat, deepest: int)
    requires cs <= h.supers.Keys && forall c :: c in cs ==> |h.supers[c]| <= deepest
    ensures var top := AtDepth(h, NotBelow(h, cs, level), level);
            && top <= cs && NotBelow(h, cs, level) <= cs && Below(h, cs, level) <= cs
            && NotBelow(h, cs, level) - top == NotBelow(h, cs, level + 1)
            && Below(h, cs, level) + top == Below(h, cs, level + 1)
            && (forall c :: c in top ==> c !in Below(h, cs, level) && Depth(h, c) == level)
            && (forall c :: c in cs && Depth(h, c) < level ==> c in Below(h, cs, level))
    ensures NotBelow(h, cs, level) != {} ==> level <= deepest
  {
    if c :| c in NotBelow(h, cs, level) { assert Depth(h, c) <= deepest; }
  }

  lemma {:induction false} BaseIsShallower(h: Hierarchy, c: string)
    requires WellFormed(h) && c in h.defs && Depth(h, c) > 0
    ensures HasBase(h, c) && Base(h, c) in h.defs && |h.supers[Base(h, c)]| == |h.supers[c]| - 1
  {
  }

  lemma {:induction false} OwnMutexIsTable(h: Hierarchy, c: string)
    requires WellFormed(h) && c in h.defs
    ensures OwnMutex(h, c) == TableOf(GroupsOf(h, c, h.defs[c].mutexes))
  {
    hide TableOf, GroupsOf;
  }

  lemma {:induction false} AccUnfold(h: Hierarchy, c: string)
    requires WellFormed(h) && c in h.defs
    ensures AccMutex(h, c) == if h.supers[c] == [] then OwnMutex(h, c)
            else MergeMutex(AccMutex(h, Base(h, c)), OwnMutex(h, c))
    ensures AccPreds(h, c) == if h.supers[c] == [] then OwnPreds(h, c)
            else MergePreds(AccPreds(h, Base(h, c)), OwnPreds(h, c))
  {
  }

  /** A bound on the lengths of the inheritance lists, whatever they are. */
  ghost function Deepest(supers: map<string, seq<string>>, cs: set<string>): (d: nat)
    requires cs <= supers.Keys
    ensures forall c :: c in cs ==> |supers[c]| <= d
    decreases cs
  {
    if cs == {} then 0
    else
      var c :| c in cs;
      var rest := Deepest(supers, cs - {c});
      if |supers[c]| > rest then |supers[c]| else rest
  }
}
