/**
 Synchronisation tables of a single-inheritance class hierarchy: operation numbers,
 accumulated permission predicates and mutex relations, as functions of the class.
 The methods that compute them class by class are in SyncScan.
 */
module SyncTables {

  /** mutex(all) or mutex(op, ..., op), with unqualified names. */
  datatype Mutex = AllOps | Ops(ops: set<string>)

  datatype GuardExpr = GuardExpr(guard: string, cls: string)

  /** opers in the order the set of operations is iterated; at most one predicate per operation. */
  datatype ClassDef = ClassDef(opers: seq<string>, perms: map<string, string>, mutexes: seq<Mutex>)

  datatype OpName = OpName(cls: string, op: string)

  type Groups = seq<set<OpName>>
  type MutexTable = map<OpName, set<OpName>>
  type PredTable = map<OpName, seq<GuardExpr>>

  /** supers: GetOrderedSupers, nearest base class first. */
  datatype Hierarchy = Hierarchy(defs: map<string, ClassDef>, supers: map<string, seq<string>>)

  ghost predicate NoRepeats(s: seq<string>) { forall i, j :: 0 <= i < j < |s| ==> s[i] != s[j] }

  /** At most one direct base class, which is defined, and its list behind it. */
  ghost predicate Linked(h: Hierarchy, c: string)
    requires c in h.defs && c in h.supers
  {
    NoRepeats(h.defs[c].opers) &&
    (h.supers[c] != [] ==>
       && h.supers[c][0] in h.defs && h.supers[c][0] in h.supers
       && h.supers[c] == [h.supers[c][0]] + h.supers[h.supers[c][0]])
  }

  /** Single inheritance, all superclasses defined. */
  ghost predicate WellFormed(h: Hierarchy) {
    h.supers.Keys == h.defs.Keys
    && forall c {:trigger Linked(h, c)} :: c in h.defs && c in h.supers ==> Linked(h, c)
  }

  function Depth(h: Hierarchy, c: string): nat { if c in h.supers then |h.supers[c]| else 0 }

  ghost predicate HasBase(h: Hierarchy, c: string) { WellFormed(h) && c in h.defs && h.supers[c] != [] }

  /** The direct base class. */
  function Base(h: Hierarchy, c: string): (b: string)
    requires HasBase(h, c)
    ensures b in h.defs && b == h.supers[c][0] && h.supers[c] == [b] + h.supers[b] && Depth(h, b) == Depth(h, c) - 1
  {
    assert Linked(h, c);
    h.supers[c][0]
  }

  /** The class and all its superclasses. */
  function Chain(h: Hierarchy, c: string): seq<string>
    requires WellFormed(h) && c in h.defs
  {
    [c] + h.supers[c]
  }

  lemma {:induction false} ChainStep(h: Hierarchy, c: string)
    requires HasBase(h, c)
    ensures Chain(h, c) == [c] + Chain(h, Base(h, c))
  {
  }

  lemma {:induction false} ChainDefined(h: Hierarchy, c: string, d: string)
    requires WellFormed(h) && c in h.defs && d in Chain(h, c)
    ensures d in h.defs && (d != c ==> Depth(h, d) < Depth(h, c))
    ensures forall x :: x in Chain(h, d) ==> x in Chain(h, c)
    decreases Depth(h, c)
  {
    if h.supers[c] != [] && d != c {
      ChainStep(h, c);
      ChainDefined(h, Base(h, c), d);
    }
  }

  // ----- Operation numbers -----

  function StartCount(h: Hierarchy, c: string): nat
    requires WellFormed(h) && c in h.defs
    decreases Depth(h, c)
  {
    if h.supers[c] == [] then 0 else StartCount(h, Base(h, c)) + |h.defs[Base(h, c)].opers|
  }

  /** nr_functions of the class's sentinel. */
  function NrFunctions(h: Hierarchy, c: string): nat
    requires WellFormed(h) && c in h.defs
  {
    StartCount(h, c) + |h.defs[c].opers|
  }

  ghost predicate IsOper(h: Hierarchy, n: OpName) { n.cls in h.defs && n.op in h.defs[n.cls].opers }

  /** Operations an object of class c has, own and inherited. */
  ghost predicate OperOf(h: Hierarchy, c: string, n: OpName)
    requires WellFormed(h) && c in h.defs
  {
    n.cls in Chain(h, c) && IsOper(h, n)
  }

  function IndexOf(s: seq<string>, x: string): (i: nat)
    requires x in s
    ensures i < |s| && s[i] == x
  {
    if s[0] == x then 0 else 1 + IndexOf(s[1..], x)
  }

  /** The constant of the operation in its class's sentinel. */
  function Number(h: Hierarchy, n: OpName): nat
    requires WellFormed(h) && IsOper(h, n)
  {
    StartCount(h, n.cls) + IndexOf(h.defs[n.cls].opers, n.op)
  }

  /** The operation with number k in an object of class c. */
  function OperAt(h: Hierarchy, c: string, k: nat): (n: OpName)
    requires WellFormed(h) && c in h.defs && k < NrFunctions(h, c)
    ensures OperOf(h, c, n)
    decreases Depth(h, c)
  {
    if k >= StartCount(h, c) then OpName(c, h.defs[c].opers[k - StartCount(h, c)])
    else
      ChainStep(h, c);
      OperAt(h, Base(h, c), k)
  }

  lemma {:induction false} IndexOfAt(s: seq<string>, i: nat)
    requires i < |s| && NoRepeats(s)
    ensures s[i] in s && IndexOf(s, s[i]) == i
  {
    if i > 0 {
      assert s[1..][i - 1] == s[i] && s[0] != s[i];
      IndexOfAt(s[1..], i - 1);
    }
  }

  /** Every number below nr_functions belongs to an operation of the object. */
  lemma {:induction false} NumberOfOperAt(h: Hierarchy, c: string, k: nat)
    requires WellFormed(h) && c in h.defs && k < NrFunctions(h, c)
    ensures Number(h, OperAt(h, c, k)) == k
    decreases Depth(h, c)
  {
    if k >= StartCount(h, c) {
      assert Linked(h, c);
      IndexOfAt(h.defs[c].opers, k - StartCount(h, c));
    } else {
      NumberOfOperAt(h, Base(h, c), k);
    }
  }

  /** Every operation of the object has a legal number, and no other operation has it. */
  lemma {:induction false} OperAtNumber(h: Hierarchy, c: string, n: OpName)
    requires WellFormed(h) && c in h.defs && OperOf(h, c, n)
    ensures Number(h, n) < NrFunctions(h, c) && OperAt(h, c, Number(h, n)) == n
    decreases Depth(h, c)
  {
    if n.cls != c {
      ChainStep(h, c);
      OperAtNumber(h, Base(h, c), n);
    }
  }

  /**
   Numbers along a superclass chain partition 0 .. nr_functions - 1: each number is the
   number of exactly one operation of the object.
   */
  lemma {:induction false} NumbersPartition(h: Hierarchy, c: string, n: OpName, m: OpName, k: nat)
    requires WellFormed(h) && c in h.defs && OperOf(h, c, n) && OperOf(h, c, m)
    ensures 0 <= Number(h, n) < NrFunctions(h, c)
    ensures Number(h, n) == Number(h, m) <==> n == m
    ensures k < NrFunctions(h, c) <==> exists x: OpName :: OperOf(h, c, x) && Number(h, x) == k
  {
    OperAtNumber(h, c, n);
    OperAtNumber(h, c, m);
    if k < NrFunctions(h, c) { NumberOfOperAt(h, c, k); }
    forall x: OpName | OperOf(h, c, x) ensures Number(h, x) < NrFunctions(h, c) { OperAtNumber(h, c, x); }
  }

  // ----- Qualified names -----

  /** ClassDefiningOper: the first class of the search list that has the operation. */
  function DefiningClass(h: Hierarchy, searchList: seq<string>, op: string): string {
    if searchList == [] then ""
    else if searchList[0] in h.defs && op in h.defs[searchList[0]].opers then searchList[0]
    else DefiningClass(h, searchList[1..], op)
  }

  function Qualify(h: Hierarchy, c: string, op: string): OpName
    requires WellFormed(h) && c in h.defs
  {
    OpName(DefiningClass(h, Chain(h, c), op), op)
  }

  /** Names of all operations of the classes listed. */
  function OperNames(h: Hierarchy, searchList: seq<string>): set<string> {
    if searchList == [] then {}
    else
      (if searchList[0] in h.defs then set o | o in h.defs[searchList[0]].opers else {})
      + OperNames(h, searchList[1..])
  }

  // ----- What the synchronisation definitions say -----

  ghost predicate HasOper(h: Hierarchy, d: string, o: string) { d in h.defs && o in h.defs[d].opers }

  /** The class or a superclass has an operation o. */
  ghost predicate Known(h: Hierarchy, c: string, o: string)
    requires WellFormed(h) && c in h.defs
  {
    exists d :: d in Chain(h, c) && HasOper(h, d, o)
  }

  /** x is operation o of the i-th class of the list, and no class before it has one. */
  ghost predicate FirstWith(h: Hierarchy, list: seq<string>, o: string, x: OpName, i: nat) {
    i < |list| && x == OpName(list[i], o) && HasOper(h, list[i], o)
    && forall j :: 0 <= j < i ==> !HasOper(h, list[j], o)
  }

  /** The name o means x in class c: operation o of the nearest class, or of none, if none has it. */
  ghost predicate Resolves(h: Hierarchy, c: string, o: string, x: OpName)
    requires WellFormed(h) && c in h.defs
  {
    || (exists i :: FirstWith(h, Chain(h, c), o, x, i))
    || (x == OpName("", o) && !Known(h, c, o))
  }

  /** A permission predicate of class d, written there for operation x. */
  ghost predicate Declares(h: Hierarchy, d: string, x: OpName, e: GuardExpr)
    requires WellFormed(h) && d in h.defs
  {
    exists o :: o in h.defs[d].perms && Resolves(h, d, o, x) && e == GuardExpr(h.defs[d].perms[o], d)
  }

  /** Clause m of class d lists operation x; mutex(all) lists every operation of the class and its superclasses. */
  ghost predicate Lists(h: Hierarchy, d: string, m: Mutex, x: OpName)
    requires WellFormed(h) && d in h.defs
  {
    exists o :: Resolves(h, d, o, x) && if m.AllOps? then Known(h, d, o) else o in m.ops
  }

  /** Some mutex clause of class d lists both operations. */
  ghost predicate Together(h: Hierarchy, d: string, x: OpName, y: OpName)
    requires WellFormed(h) && d in h.defs
  {
    exists m :: m in h.defs[d].mutexes && Lists(h, d, m, x) && Lists(h, d, m, y)
  }

  /** A clause of the class or a superclass lists both operations. */
  ghost predicate Excludes(h: Hierarchy, c: string, x: OpName, y: OpName)
    requires WellFormed(h) && c in h.defs
  {
    exists d :: d in Chain(h, c) && d in h.defs && Together(h, d, x, y)
  }

  // ----- The lookups find what is meant -----

  lemma {:induction false} OperNamesAre(h: Hierarchy, list: seq<string>, o: string)
    ensures o in OperNames(h, list) <==> exists d :: d in list && HasOper(h, d, o)
  {
    if list != [] {
      OperNamesAre(h, list[1..], o);
      assert o in OperNames(h, list) <==> HasOper(h, list[0], o) || o in OperNames(h, list[1..]);
      assert list[0] in list && forall d :: d in list <==> d == list[0] || d in list[1..];
    }
  }

  lemma {:induction false} DefiningClassIsFirst(h: Hierarchy, list: seq<string>, o: string)
    requires o in OperNames(h, list)
    ensures exists i :: FirstWith(h, list, o, OpName(DefiningClass(h, list, o), o), i)
  {
    var x := OpName(DefiningClass(h, list, o), o);
    if HasOper(h, list[0], o) {
      assert FirstWith(h, list, o, x, 0);
    } else {
      DefiningClassIsFirst(h, list[1..], o);
      var i :| FirstWith(h, list[1..], o, x, i);
      FirstBehind(h, list, o, x, i);
    }
  }

  lemma {:induction false} FirstBehind(h: Hierarchy, list: seq<string>, o: string, x: OpName, i: nat)
    requires list != [] && !HasOper(h, list[0], o) && FirstWith(h, list[1..], o, x, i)
    ensures FirstWith(h, list, o, x, i + 1)
  {
    forall j | 0 <= j < i + 1 ensures !HasOper(h, list[j], o) { if j > 0 { assert list[j] == list[1..][j - 1]; } }
  }

  lemma {:induction false} NobodyDefines(h: Hierarchy, list: seq<string>, o: string)
    requires o !in OperNames(h, list)
    ensures DefiningClass(h, list, o) == ""
  {
    if list != [] { NobodyDefines(h, list[1..], o); }
  }

  lemma {:induction false} OnlyOneFirst(h: Hierarchy, list: seq<string>, o: string, x: OpName, i: nat, y: OpName,
                                        j: nat)
    requires FirstWith(h, list, o, x, i) && FirstWith(h, list, o, y, j)
    ensures x == y
  {
  }

  /** Qualifying a name finds the operation of the nearest class that has one. */
  lemma {:induction false} QualifyResolves(h: Hierarchy, c: string, o: string, x: OpName)
    requires WellFormed(h) && c in h.defs
    ensures Resolves(h, c, o, x) <==> x == Qualify(h, c, o)
    ensures Known(h, c, o) <==> o in OperNames(h, Chain(h, c))
    ensures Known(h, c, o) ==> OperOf(h, c, Qualify(h, c, o))
  {
    hide WellFormed, Chain, DefiningClass, OperNames, HasOper;
    var list := Chain(h, c);
    OperNamesAre(h, list, o);
    if o in OperNames(h, list) {
      DefiningClassIsFirst(h, list, o);
      var i :| FirstWith(h, list, o, Qualify(h, c, o), i);
      assert OperOf(h, c, Qualify(h, c, o)) by { FirstIsOper(h, list, o, Qualify(h, c, o), i); }
      if j :| FirstWith(h, list, o, x, j) { OnlyOneFirst(h, list, o, x, j, Qualify(h, c, o), i); }
    } else {
      NobodyDefines(h, list, o);
    }
  }

  lemma {:induction false} FirstIsOper(h: Hierarchy, list: seq<string>, o: string, x: OpName, i: nat)
    requires FirstWith(h, list, o, x, i)
    ensures x.cls in list && IsOper(h, x)
  {
  }

  // ----- Mutex tables -----

  /** One mutex clause of class c as a set of qualified names. */
  function Group(h: Hierarchy, c: string, m: Mutex): set<OpName>
    requires WellFormed(h) && c in h.defs
  {
    var ops := if m.AllOps? then OperNames(h, Chain(h, c)) else m.ops;
    set o | o in ops :: Qualify(h, c, o)
  }

  function GroupsOf(h: Hierarchy, c: string, ms: seq<Mutex>): Groups
    requires WellFormed(h) && c in h.defs
  {
    if ms == [] then [] else [Group(h, c, ms[0])] + GroupsOf(h, c, ms[1..])
  }

  lemma {:induction false} GroupsAre(h: Hierarchy, c: string, ms: seq<Mutex>)
    requires WellFormed(h) && c in h.defs
    ensures |GroupsOf(h, c, ms)| == |ms| && forall i :: 0 <= i < |ms| ==> GroupsOf(h, c, ms)[i] == Group(h, c, ms[i])
  {
    hide Group, WellFormed;
    if ms != [] { GroupsAre(h, c, ms[1..]); }
  }

  lemma {:induction false} GroupLists(h: Hierarchy, c: string, m: Mutex, x: OpName)
    requires WellFormed(h) && c in h.defs
    ensures x in Group(h, c, m) <==> Lists(h, c, m, x)
  {
    hide WellFormed, Qualify, OperNames, Resolves, Known;
    forall o
      ensures (Resolves(h, c, o, x) <==> x == Qualify(h, c, o)) && (Known(h, c, o) <==> o in OperNames(h, Chain(h, c)))
    {
      QualifyResolves(h, c, o, x);
    }
  }

  function AllOf(gs: Groups): set<OpName> {
    if gs == [] then {} else gs[0] + AllOf(gs[1..])
  }

  lemma {:induction false} InAllOf(gs: Groups, x: OpName)
    ensures x in AllOf(gs) <==> exists i :: 0 <= i < |gs| && x in gs[i]
  {
    if gs != [] {
      InAllOf(gs[1..], x);
      assert forall i :: 0 < i < |gs| ==> gs[i] == gs[1..][i - 1];
    }
  }

  /** Everything that shares a group with x. */
  function Neighbours(gs: Groups, x: OpName): set<OpName> {
    if gs == [] then {} else (if x in gs[0] then gs[0] else {}) + Neighbours(gs[1..], x)
  }

  lemma {:induction false} InNeighbours(gs: Groups, x: OpName, y: OpName)
    ensures y in Neighbours(gs, x) <==> exists i :: 0 <= i < |gs| && x in gs[i] && y in gs[i]
  {
    if gs != [] {
      InNeighbours(gs[1..], x, y);
      assert forall i :: 0 < i < |gs| ==> gs[i] == gs[1..][i - 1];
    }
  }

  function TableOf(gs: Groups): MutexTable { map x | x in AllOf(gs) :: Neighbours(gs, x) }

  function SetAt(t: MutexTable, x: OpName): set<OpName> { if x in t then t[x] else {} }

  function SeqAt(t: PredTable, x: OpName): seq<GuardExpr> { if x in t then t[x] else [] }

  function MergeMutex(base: MutexTable, derived: MutexTable): MutexTable {
    map x | x in base.Keys + derived.Keys :: SetAt(base, x) + SetAt(derived, x)
  }

  function MergePreds(base: PredTable, derived: PredTable): PredTable {
    map x | x in base.Keys + derived.Keys :: SeqAt(base, x) + SeqAt(derived, x)
  }

  function OwnMutex(h: Hierarchy, c: string): MutexTable
    requires WellFormed(h) && c in h.defs
  {
    TableOf(GroupsOf(h, c, h.defs[c].mutexes))
  }

  /** The class's own permission predicates under qualified names. */
  function OwnPreds(h: Hierarchy, c: string): PredTable
    requires WellFormed(h) && c in h.defs
  {
    map o | o in h.defs[c].perms :: Qualify(h, c, o) := [GuardExpr(h.defs[c].perms[o], c)]
  }

  function AccMutex(h: Hierarchy, c: string): MutexTable
    requires WellFormed(h) && c in h.defs
    decreases Depth(h, c)
  {
    if h.supers[c] == [] then OwnMutex(h, c) else MergeMutex(AccMutex(h, Base(h, c)), OwnMutex(h, c))
  }

  function AccPreds(h: Hierarchy, c: string): PredTable
    requires WellFormed(h) && c in h.defs
    decreases Depth(h, c)
  {
    if h.supers[c] == [] then OwnPreds(h, c) else MergePreds(AccPreds(h, Base(h, c)), OwnPreds(h, c))
  }

  lemma {:induction false} OwnMutexIsTogether(h: Hierarchy, c: string, x: OpName, y: OpName)
    requires WellFormed(h) && c in h.defs
    ensures x in OwnMutex(h, c) <==> Together(h, c, x, x)
    ensures y in SetAt(OwnMutex(h, c), x) <==> Together(h, c, x, y)
  {
    hide Group, WellFormed, GroupsOf, AllOf, Neighbours, Lists;
    var ms := h.defs[c].mutexes;
    var gs := GroupsOf(h, c, ms);
    GroupsAre(h, c, ms);
    InAllOf(gs, x);
    InNeighbours(gs, x, y);
    forall i | 0 <= i < |ms|
      ensures (x in gs[i] <==> Lists(h, c, ms[i], x)) && (y in gs[i] <==> Lists(h, c, ms[i], y))
    {
      GroupLists(h, c, ms[i], x);
      GroupLists(h, c, ms[i], y);
    }
  }

  /** The accumulated mutex table relates x and y exactly when a clause of the class or a superclass lists both. */
  lemma {:induction false} MutexIsUnionOfChain(h: Hierarchy, c: string, x: OpName, y: OpName)
    requires WellFormed(h) && c in h.defs
    ensures x in AccMutex(h, c) <==> Excludes(h, c, x, x)
    ensures y in SetAt(AccMutex(h, c), x) <==> Excludes(h, c, x, y)
    decreases Depth(h, c)
  {
    hide OwnMutex, Together;
    OwnMutexIsTogether(h, c, x, y);
    assert c in Chain(h, c);
    if h.supers[c] != [] {
      ChainStep(h, c);
      MutexIsUnionOfChain(h, Base(h, c), x, y);
    }
  }

  /** Mutual exclusion is reflexive on the table's operations, and symmetric. */
  lemma {:induction false} MutexIsSymmetric(h: Hierarchy, c: string, x: OpName, y: OpName)
    requires WellFormed(h) && c in h.defs
    ensures x in AccMutex(h, c) ==> x in AccMutex(h, c)[x]
    ensures y in SetAt(AccMutex(h, c), x) <==> x in SetAt(AccMutex(h, c), y)
  {
    hide AccMutex, Group;
    MutexIsUnionOfChain(h, c, x, x);
    MutexIsUnionOfChain(h, c, x, y);
    MutexIsUnionOfChain(h, c, y, x);
  }

  lemma {:induction false} OwnPredsAreDeclared(h: Hierarchy, c: string, x: OpName)
    requires WellFormed(h) && c in h.defs
    ensures x in OwnPreds(h, c) <==> exists e :: Declares(h, c, x, e)
    ensures |SeqAt(OwnPreds(h, c), x)| <= 1
    ensures forall e :: e in SeqAt(OwnPreds(h, c), x) <==> Declares(h, c, x, e)
  {
    hide WellFormed, Resolves, DefiningClass;
    forall o ensures Resolves(h, c, o, x) <==> x == Qualify(h, c, o) { QualifyResolves(h, c, o, x); }
    if x in OwnPreds(h, c) {
      var o :| o in h.defs[c].perms && x == Qualify(h, c, o);
      var e := GuardExpr(h.defs[c].perms[o], c);
      assert OwnPreds(h, c)[x] == [e] && Declares(h, c, x, e);
    }
  }

  /** One guard a class, those of base classes before those of their subclasses. */
  ghost predicate BaseFirst(h: Hierarchy, s: seq<GuardExpr>) {
    forall i, j :: 0 <= i < j < |s| ==> Depth(h, s[i].cls) < Depth(h, s[j].cls)
  }

  /** The accumulated guards of an operation are the permission predicates written for it in the
      class and its superclasses, base classes first, and no others. */
  lemma {:induction false} PredsAreUnionOfChain(h: Hierarchy, c: string, x: OpName)
    requires WellFormed(h) && c in h.defs
    ensures x in AccPreds(h, c) <==> exists d, e :: d in Chain(h, c) && d in h.defs && Declares(h, d, x, e)
    ensures forall e :: e in SeqAt(AccPreds(h, c), x) <==>
              exists d :: d in Chain(h, c) && d in h.defs && Declares(h, d, x, e)
    ensures BaseFirst(h, SeqAt(AccPreds(h, c), x))
    decreases Depth(h, c)
  {
    hide OwnPreds, Declares, BaseFirst;
    OwnPredsAreDeclared(h, c, x);
    var own := SeqAt(OwnPreds(h, c), x);
    if h.supers[c] == [] {
      assert Chain(h, c) == [c];
      assert BaseFirst(h, own) by { SingleIsSorted(h, own); }
    } else {
      BaseChain(h, c);
      PredsAreUnionOfChain(h, Base(h, c), x);
      var base := SeqAt(AccPreds(h, Base(h, c)), x);
      assert SeqAt(AccPreds(h, c), x) == base + own;
      forall e | e in base ensures Depth(h, e.cls) < Depth(h, c) {
        var d :| d in Chain(h, Base(h, c)) && d in h.defs && Declares(h, d, x, e);
        DeclaredThere(h, d, x, e);
        ChainDefined(h, Base(h, c), d);
      }
      forall e | e in own ensures e.cls == c { DeclaredThere(h, c, x, e); }
      SortedWithOne(h, base, own, c);
    }
  }

  lemma {:induction false} BaseChain(h: Hierarchy, c: string)
    requires HasBase(h, c)
    ensures Depth(h, Base(h, c)) < Depth(h, c) && Base(h, c) in h.defs && c in h.defs
    ensures forall d :: d in Chain(h, c) <==> d == c || d in Chain(h, Base(h, c))
  {
    ChainStep(h, c);
  }

  lemma {:induction false} DeclaredThere(h: Hierarchy, d: string, x: OpName, e: GuardExpr)
    requires WellFormed(h) && d in h.defs && Declares(h, d, x, e)
    ensures e.cls == d
  {
  }

  lemma {:induction false} SingleIsSorted(h: Hierarchy, s: seq<GuardExpr>)
    requires |s| <= 1
    ensures BaseFirst(h, s)
  {
  }

  lemma {:induction false} SortedWithOne(h: Hierarchy, base: seq<GuardExpr>, own: seq<GuardExpr>, c: string)
    requires BaseFirst(h, base) && |own| <= 1
    requires (forall e :: e in base ==> Depth(h, e.cls) < Depth(h, c)) && forall e :: e in own ==> e.cls == c
    ensures BaseFirst(h, base + own)
  {
    forall i, j | 0 <= i < j < |base + own| ensures Depth(h, (base + own)[i].cls) < Depth(h, (base + own)[j].cls) {
      assert (base + own)[i] in base;
      if j >= |base| { assert (base + own)[j] in own; }
    }
  }

  // ----- Which class's evaluatePP an object has -----

  predicate NewGuards(h: Hierarchy, c: string)
    requires WellFormed(h) && c in h.defs
  {
    OwnMutex(h, c).Keys != {} || OwnPreds(h, c).Keys != {}
  }

  /** New guards are permission predicates or mutex clauses with operations, written in the class. */
  lemma {:induction false} NewGuardsAreDeclared(h: Hierarchy, c: string)
    requires WellFormed(h) && c in h.defs
    ensures NewGuards(h, c) <==> exists x :: Together(h, c, x, x) || exists e :: Declares(h, c, x, e)
  {
    hide OwnMutex, OwnPreds, Together, Declares, WellFormed;
    forall x ensures (x in OwnMutex(h, c) <==> Together(h, c, x, x))
                     && (x in OwnPreds(h, c) <==> exists e :: Declares(h, c, x, e))
    {
      OwnMutexIsTogether(h, c, x, x);
      OwnPredsAreDeclared(h, c, x);
    }
    if x :| x in OwnMutex(h, c).Keys {
      assert Together(h, c, x, x);
    } else if x :| x in OwnPreds(h, c).Keys {
      assert exists e :: Declares(h, c, x, e);
    } else {
      assert OwnMutex(h, c).Keys == {} && OwnPreds(h, c).Keys == {};
    }
  }

  /** GenEvaluatePP emits a method for top classes and for classes with guards of their own. */
  predicate Emits(h: Hierarchy, c: string)
    requires WellFormed(h) && c in h.defs
  {
    h.supers[c] == [] || NewGuards(h, c)
  }

  /** The class whose evaluatePP an object of class c runs. */
  function Emitter(h: Hierarchy, c: string): (d: string)
    requires WellFormed(h) && c in h.defs
    ensures d in h.defs
    decreases Depth(h, c)
  {
    if Emits(h, c) then c else Emitter(h, Base(h, c))
  }

  /** Inherited evaluatePP is the right one: it was built from the very tables of the object's class. */
  lemma {:induction false} InheritedGuardIsRight(h: Hierarchy, c: string)
    requires WellFormed(h) && c in h.defs
    ensures Emitter(h, c) in Chain(h, c) && Emits(h, Emitter(h, c))
    ensures AccMutex(h, Emitter(h, c)) == AccMutex(h, c) && AccPreds(h, Emitter(h, c)) == AccPreds(h, c)
    decreases Depth(h, c)
  {
    hide OwnMutex, OwnPreds;
    assert c in Chain(h, c);
    if !Emits(h, c) {
      ChainStep(h, c);
      InheritedGuardIsRight(h, Base(h, c));
      MergeNothing(AccMutex(h, Base(h, c)), OwnMutex(h, c), AccPreds(h, Base(h, c)), OwnPreds(h, c));
    }
  }

  lemma {:induction false} MergeNothing(base: MutexTable, own: MutexTable, preds: PredTable, ownPreds: PredTable)
    requires own.Keys == {} && ownPreds.Keys == {}
    ensures MergeMutex(base, own) == base && MergePreds(preds, ownPreds) == preds
  {
    assert forall x :: x !in own && x !in ownPreds;
    forall x | x in base ensures MergeMutex(base, own)[x] == base[x] {}
    forall x | x in preds ensures MergePreds(preds, ownPreds)[x] == preds[x] {}
  }
}
