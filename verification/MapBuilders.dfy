/**
 The statement builders as the generator runs them: they grow statement lists and
 draw fresh names from a counter.
 */
module MapBuilders {
  import opened JavaStatements
  import opened MapLowering
  import opened MapOperators

  /** The statements compute v1 ** v2 into res, in every state and order, with names up to k taken. */
  ghost predicate Iterates(rb: seq<Stmt>, v1: Name, v2: Name, res: Name, k: nat) {
    forall st: State, ord: Order, fuel: nat ::
      AnyOrder(ord) && v1 in st.store && v2 in st.store && (IsNatSlot(st.store[v2]) ==> fuel > st.store[v2].v.n)
      ==> IterationSpec(Exec(rb, st, ord, fuel), st, v1, v2, res, k)
  }

  /** Both operands are variables, and maps where their static types say so. */
  ghost predicate MapOperands(st: State, v1: Name, isMap1: bool, v2: Name, isMap2: bool) {
    && v1 in st.store && v2 in st.store && NoDangling(st)
    && (isMap1 ==> st.IsMapAt(st.store[v1])) && (isMap2 ==> st.IsMapAt(st.store[v2]))
  }

  ghost predicate Composes(rb: seq<Stmt>, v1: Name, isMap1: bool, v2: Name, isMap2: bool, res: Name, k: nat) {
    forall st: State, ord: Order, fuel: nat :: AnyOrder(ord) && MapOperands(st, v1, isMap1, v2, isMap2)
      ==> ComposeSpec(Exec(rb, st, ord, fuel), st, v1, v2, res, k)
  }

  ghost predicate Merges(rb: seq<Stmt>, v1: Name, isMap1: bool, v2: Name, isMap2: bool, res: Name, k: nat) {
    forall st: State, ord: Order, fuel: nat :: AnyOrder(ord) && MapOperands(st, v1, isMap1, v2, isMap2)
      ==> MergeSpec(Exec(rb, st, ord, fuel), st, v1, v2, res, k)
  }

  ghost predicate Restricts(rb: seq<Stmt>, op: RestrictOp, s: Name, m: Name, isMap: bool, res: Name, k: nat) {
    forall st: State, ord: Order, fuel: nat ::
      AnyOrder(ord) && s in st.store && m in st.store && NoDangling(st) && (isMap ==> st.IsMapAt(st.store[m]))
      ==> RestrictSpec(Exec(rb, st, ord, fuel), op, st, s, m, res, k)
  }

  lemma {:induction false} IterationCodeIterates(v1: Name, isMapType: bool, v2: Name, res: Name, k: nat)
    requires Old(v1, k) && Old(v2, k) && Old(res, k)
    ensures Iterates(IterationCode(v1, isMapType, v2, res, k), v1, v2, res, k)
  {
    hide Exec, IterationCode, IterationSpec, AnyOrder;
    forall st: State, ord: Order, fuel: nat |
      AnyOrder(ord) && v1 in st.store && v2 in st.store && (IsNatSlot(st.store[v2]) ==> fuel > st.store[v2].v.n)
      ensures IterationSpec(Exec(IterationCode(v1, isMapType, v2, res, k), st, ord, fuel), st, v1, v2, res, k)
    {
      IterationComputes(st, v1, isMapType, v2, res, k, ord, fuel);
    }
  }

  lemma {:induction false} ComposeCodeComposes(v1: Name, isMap1: bool, v2: Name, isMap2: bool, res: Name, k: nat)
    requires Old(v1, k) && Old(v2, k) && Old(res, k)
    ensures Composes(ComposeCode(v1, isMap1, v2, isMap2, res, k), v1, isMap1, v2, isMap2, res, k)
  {
    hide Exec, ComposeCode, ComposeSpec, AnyOrder, NoDangling;
    forall st: State, ord: Order, fuel: nat | AnyOrder(ord) && MapOperands(st, v1, isMap1, v2, isMap2)
      ensures ComposeSpec(Exec(ComposeCode(v1, isMap1, v2, isMap2, res, k), st, ord, fuel), st, v1, v2, res, k)
    {
      ComposeComputes(st, v1, isMap1, v2, isMap2, res, k, ord, fuel);
    }
  }

  lemma {:induction false} MergeCodeMerges(v1: Name, isMap1: bool, v2: Name, isMap2: bool, res: Name, k: nat)
    requires Old(v1, k) && Old(v2, k) && Old(res, k)
    ensures Merges(MergeCode(v1, isMap1, v2, isMap2, res, k), v1, isMap1, v2, isMap2, res, k)
  {
    hide Exec, MergeCode, MergeSpec, AnyOrder, NoDangling;
    forall st: State, ord: Order, fuel: nat | AnyOrder(ord) && MapOperands(st, v1, isMap1, v2, isMap2)
      ensures MergeSpec(Exec(MergeCode(v1, isMap1, v2, isMap2, res, k), st, ord, fuel), st, v1, v2, res, k)
    {
      MergeComputes(st, v1, isMap1, v2, isMap2, res, k, ord, fuel);
    }
  }

  lemma {:induction false} RestrictCodeRestricts(op: RestrictOp, s: Name, isSet: bool, m: Name, isMap: bool,
                                                 res: Name, k: nat)
    requires Old(s, k) && Old(m, k) && Old(res, k)
    ensures Restricts(RestrictCode(op, s, isSet, m, isMap, res, k), op, s, m, isMap, res, k)
  {
    hide Exec, RestrictCode, RestrictSpec, AnyOrder, NoDangling;
    forall st: State, ord: Order, fuel: nat |
      AnyOrder(ord) && s in st.store && m in st.store && NoDangling(st) && (isMap ==> st.IsMapAt(st.store[m]))
      ensures RestrictSpec(Exec(RestrictCode(op, s, isSet, m, isMap, res, k), st, ord, fuel), op, st, s, m, res, k)
    {
      RestrictComputes(op, st, s, isSet, m, isMap, res, k, ord, fuel);
    }
  }

  class VdmCG {
    var next: nat

    constructor ()
      ensures next == 0
    {
      next := 0;
    }

    /** Every name drawn so far is old with respect to next, and the new one is not. */
    method GiveName(base: string) returns (n: Name)
      modifies this
      ensures n == Fresh(base, old(next)) && next == old(next) + 1
      ensures !Old(n, old(next)) && Old(n, next)
    {
      n := Fresh(base, next);
      next := next + 1;
    }

    method GenIterMap(m: Name, key: Name, elem: Option<Name>, stmt: seq<Stmt>) returns (rb: seq<Stmt>)
      modifies this
      ensures rb == IterMapCode(m, key, elem, stmt, old(next)) && next == old(next) + 4
    {
      var tmpe := GiveName("tmpe");
      var tmpMap := GiveName("tmpMap");
      var enm := GiveName("enm");
      var dom := GiveName("dom");
      var body := [Set(key, Var(dom))];
      if elem.Some? { body := body + [Set(elem.value, Get(Var(tmpMap), Var(dom)))]; }
      body := body + stmt;
      ghost var loop := IterMapLoop(key, elem, stmt, old(next));
      assert body == loop.body;
      rb := [Alloc(tmpMap, CopyMap(Var(m)))];
      rb := rb + [ForEach(KeySet(Var(tmpMap)), BoolLit(true), dom, body)];
    }

    method GenIterSet(s: Coll, cond: Expr, e: Name, stmt: seq<Stmt>) returns (rb: seq<Stmt>)
      modifies this
      ensures rb == IterSetCode(s, cond, e, stmt, old(next)) && next == old(next) + 2
    {
      var enm := GiveName("enm");
      var tmpSet := GiveName("tmpSet");
      rb := [Alloc(tmpSet, CopySet(s))];
      rb := rb + [ForEach(Elements(Var(tmpSet)), cond, e, stmt)];
    }

    method GenMapIterIfPart(n: Name, tmpMap: Name) returns (rb: seq<Stmt>)
      modifies this
      ensures rb == IterIfPart(n, tmpMap, old(next)) && next == old(next) + 13
    {
      ghost var k := next;
      var mm := GiveName("mm");
      var key := GiveName("key");
      var estmt0 := GenIterMap(mm, key, None, [Put(Var(tmpMap), Var(key), Var(key))]);
      var guard := If(Not(ContainsAll(KeySet(Var(tmpMap)), Values(Var(tmpMap)))), [RunTime], []);
      var mm2 := GiveName("mm");
      var elem := GiveName("elem");
      var inner := [Alloc(mm2, CopyMap(Var(tmpMap)))];
      var iter := GenIterMap(mm, key, Some(elem), [Put(Var(tmpMap), Var(key), Get(Var(mm2), Var(elem)))]);
      inner := inner + iter;
      assert inner == Round(tmpMap, k);
      var count := GiveName("count");
      var estmt := [guard, ForCount(count, Var(n), inner)];
      rb := [If(Neq(Var(n), IntLit(1)),
                [Alloc(mm, CopyMap(Var(tmpMap))), If(Eq(Var(n), IntLit(0)), estmt0, estmt)], [])];
    }

    /** The statements for m ** n; IterationComputes says what they do. */
    method GenMapIteration(v1: Name, isMapType: bool, v2: Name, res: Name) returns (rb: seq<Stmt>)
      modifies this
      ensures rb == IterationCode(v1, isMapType, v2, res, old(next)) && next == old(next) + 15
      ensures Old(v1, old(next)) && Old(v2, old(next)) && Old(res, old(next)) ==> Iterates(rb, v1, v2, res, old(next))
    {
      hide Iterates, Old;
      ghost var k := next;
      var tmpMap := GiveName("tmpMap");
      var n := GiveName("n");
      rb := [Alloc(tmpMap, CopyMap(AsMap(v1, isMapType)))];
      rb := rb + [If(Not(IsNat(Var(v2))), [RunTime], [])];
      rb := rb + [Set(n, IntValue(Var(v2)))];
      var part := GenMapIterIfPart(n, tmpMap);
      rb := rb + part;
      rb := rb + [Set(res, Var(tmpMap))];
      assert rb == IterationCode(v1, isMapType, v2, res, k);
      if Old(v1, k) && Old(v2, k) && Old(res, k) { IterationCodeIterates(v1, isMapType, v2, res, k); }
    }

    method GenComposeExpr(v1: Name, isMap1: bool, v2: Name, isMap2: bool, res: Name) returns (rb: seq<Stmt>)
      modifies this
      ensures rb == ComposeCode(v1, isMap1, v2, isMap2, res, old(next))
      ensures next == KeyAt(isMap1, isMap2, old(next)) + 6
      ensures Old(v1, old(next)) && Old(v2, old(next)) && Old(res, old(next)) ==>
                Composes(rb, v1, isMap1, v2, isMap2, res, old(next))
    {
      hide Composes, Old;
      ghost var k := next;
      var tmpMap := GiveName("tmpMap");
      rb := [Alloc(tmpMap, EmptyMap)];
      var tmpMap1 := v1;
      if !isMap1 {
        tmpMap1 := GiveName("tmpMap1");
        rb := rb + [Alloc(tmpMap1, EmptyMap), If(Not(IsMap(Var(v1))), [RunTime], []), Set(tmpMap1, Cast(Var(v1)))];
      }
      assert rb == [Alloc(tmpMap, EmptyMap)] + TestFirst(v1, isMap1, k);
      var tmpMap2 := v2;
      if !isMap2 {
        tmpMap2 := GiveName("tmpMap2");
        rb := rb + [Alloc(tmpMap2, EmptyMap), If(IsMap(Var(v2)), [Set(tmpMap2, Cast(Var(v2)))], [RunTime])];
      }
      assert rb == [Alloc(tmpMap, EmptyMap)] + TestFirst(v1, isMap1, k) + TestSecond(v2, isMap2, SecondAt(isMap1, k));
      var key := GiveName("key");
      var elem := GiveName("elem");
      var ifstmt := If(Not(ContainsKey(Var(tmpMap1), Var(elem))), [RunTime], []);
      var iter := GenIterMap(tmpMap2, key, Some(elem),
          [ifstmt, Put(Var(tmpMap), Var(key), Get(Var(tmpMap1), Var(elem)))]);
      rb := rb + iter;
      rb := rb + [Set(res, Var(tmpMap))];
      assert rb == ComposeCode(v1, isMap1, v2, isMap2, res, k);
      if Old(v1, k) && Old(v2, k) && Old(res, k) { ComposeCodeComposes(v1, isMap1, v2, isMap2, res, k); }
    }

    method GenMapMerge(v1: Name, isMap1: bool, v2: Name, isMap2: bool, res: Name) returns (rb: seq<Stmt>)
      modifies this
      ensures rb == MergeCode(v1, isMap1, v2, isMap2, res, old(next)) && next == old(next) + 7
      ensures Old(v1, old(next)) && Old(v2, old(next)) && Old(res, old(next)) ==>
                Merges(rb, v1, isMap1, v2, isMap2, res, old(next))
    {
      hide Merges, Old;
      ghost var k := next;
      var com := GiveName("com");
      var allApplies := GiveName("all_applies");
      var d := GiveName("d");
      var m1 := GiveName("m1");
      var m2 := GiveName("m2");
      rb := [Alloc(m1, CopyMap(AsMap(v1, isMap1)))];
      rb := rb + [Set(m2, AsMap(v2, isMap2))];
      rb := rb + [Alloc(com, CopySet(KeySet(Var(m1))))];
      rb := rb + [RetainAll(Var(com), KeySet(Var(m2)))];
      rb := rb + [Set(allApplies, BoolLit(true))];
      var iter := GenIterSet(Elements(Var(com)), Var(allApplies), d,
                             [Set(allApplies, Equals(Get(Var(m1), Var(d)), Get(Var(m2), Var(d))))]);
      rb := rb + iter;
      rb := rb + [If(Not(Var(allApplies)), [RunTime], []), PutAll(Var(m1), Var(m2)), Set(res, Var(m1))];
      assert rb == MergeCode(v1, isMap1, v2, isMap2, res, k);
      if Old(v1, k) && Old(v2, k) && Old(res, k) { MergeCodeMerges(v1, isMap1, v2, isMap2, res, k); }
    }

    method GenMapRestToBy(op: RestrictOp, s: Name, isSet: bool, m: Name, isMap: bool, res: Name) returns (rb: seq<Stmt>)
      modifies this
      ensures rb == RestrictCode(op, s, isSet, m, isMap, res, old(next)) && next == old(next) + 5
      ensures Old(s, old(next)) && Old(m, old(next)) && Old(res, old(next)) ==>
                Restricts(rb, op, s, m, isMap, res, old(next))
    {
      hide Restricts, Old;
      ghost var k := next;
      var tmpMap := GiveName("tmpMap");
      var domM := GiveName("domM");
      var elm := GiveName("elm");
      rb := [Alloc(tmpMap, EmptyMap)];
      rb := rb + [Alloc(domM, CopySet(KeySet(AsMap(m, isMap))))];
      var iter := GenIterSet(Elements(Var(domM)), BoolLit(true), elm,
                             [RestrictStmt(op, AsSet(s, isSet), AsMap(m, isMap), elm, tmpMap)]);
      rb := rb + iter;
      rb := rb + [Set(res, Var(tmpMap))];
      assert rb == RestrictCode(op, s, isSet, m, isMap, res, k);
      if Old(s, k) && Old(m, k) && Old(res, k) { RestrictCodeRestricts(op, s, isSet, m, isMap, res, k); }
    }
  }
}
