/**
 The Java code emitted for map composition, merge and the four restrictions.
 */
module MapOperators {
  import opened VdmValues
  import opened JavaStatements
  import opened MapLowering

  // ----- Composition: v1 comp v2 -----

  function GuardedPut(target: Name, key: Name, elem: Name, via: Name): seq<Stmt> {
    [If(Not(ContainsKey(Var(via), Var(elem))), [RunTime], []),
     Put(Var(target), Var(key), Get(Var(via), Var(elem)))]
  }

  /** GenComposeExpr, Java branch. Operands of a static type other than a map are
      tested and copied to variables of their own first. */
  function ComposeCode(v1: Name, isMap1: bool, v2: Name, isMap2: bool, res: Name, k: nat): seq<Stmt> {
    var j, l := SecondAt(isMap1, k), KeyAt(isMap1, isMap2, k);
    [Alloc(Fresh("tmpMap", k), EmptyMap)]
    + TestFirst(v1, isMap1, k) + TestSecond(v2, isMap2, j)
    + IterMapCode(SecondName(v2, isMap2, j), Fresh("key", l), Some(Fresh("elem", l + 1)),
                  GuardedPut(Fresh("tmpMap", k), Fresh("key", l), Fresh("elem", l + 1), FirstName(v1, isMap1, k)),
                      l + 2)
    + [Set(res, Var(Fresh("tmpMap", k)))]
  }

  /** Names are drawn only for the operands that are tested. */
  function SecondAt(isMap1: bool, k: nat): nat { if isMap1 then k + 1 else k + 2 }

  function KeyAt(isMap1: bool, isMap2: bool, k: nat): nat {
    if isMap2 then SecondAt(isMap1, k) else SecondAt(isMap1, k) + 1
  }

  function FirstName(v1: Name, isMap1: bool, k: nat): Name { if isMap1 then v1 else Fresh("tmpMap1", k + 1) }

  function SecondName(v2: Name, isMap2: bool, j: nat): Name { if isMap2 then v2 else Fresh("tmpMap2", j) }

  function TestFirst(v1: Name, isMap1: bool, k: nat): seq<Stmt> {
    if isMap1 then []
    else [Alloc(Fresh("tmpMap1", k + 1), EmptyMap),
          If(Not(IsMap(Var(v1))), [RunTime], []),
          Set(Fresh("tmpMap1", k + 1), Cast(Var(v1)))]
  }

  function TestSecond(v2: Name, isMap2: bool, j: nat): seq<Stmt> {
    if isMap2 then []
    else [Alloc(Fresh("tmpMap2", j), EmptyMap),
          If(IsMap(Var(v2)), [Set(Fresh("tmpMap2", j), Cast(Var(v2)))], [RunTime])]
  }

  lemma {:induction false} GuardedTurn(st: State, target: Name, t: nat, key: Name, elem: Name, dom: Name, tmp: Name,
                                       h: nat, m: map<Value, Value>, via: Name, b: nat, p: map<Value, Value>,
                                       x: Value, ord: Order, fuel: nat)
    requires key != dom && key != elem && elem != dom && {key, elem, dom} !! {target, tmp, via}
    requires t < |st.heap| && st.heap[t].MapObj? && target in st.store && st.store[target] == Ref(t)
    requires Holds(st, tmp, h, m) && Holds(st, via, b, p) && x in m
    ensures Exec([Set(key, Var(dom)), Set(elem, Get(Var(tmp), Var(dom)))] + GuardedPut(target, key, elem, via),
                 st.Bind(dom, Val(x)), ord, fuel)
            == if m[x] in p then Done(ThroughState(st, t, key, elem, dom, x, m[x], p[m[x]])) else Abort
  {
    var guard := If(Not(ContainsKey(Var(via), Var(elem))), [RunTime], []);
    var put := Put(Var(target), Var(key), Get(Var(via), Var(elem)));
    var get := Set(elem, Get(Var(tmp), Var(dom)));
    var ss := [Set(key, Var(dom)), get] + GuardedPut(target, key, elem, via);
    assert ss == [Set(key, Var(dom)), get, guard, put];
    var st0 := st.Bind(dom, Val(x));
    var st1 := st0.Bind(key, Val(x));
    var st2 := st1.Bind(elem, Val(m[x]));
    assert Step(Set(key, Var(dom)), st0, ord, fuel) == Done(st1);
    EvalGet(st1, tmp, h, m, dom, x);
    assert Step(get, st1, ord, fuel) == Done(st2);
    EvalGet(st2, via, b, p, elem, m[x]);
    assert EvalBool(ContainsKey(Var(via), Var(elem)), st2) == Some(m[x] in p);
    assert EvalBool(guard.cond, st2) == Some(m[x] !in p);
    IfBranches(guard, st2, m[x] !in p, ord, fuel);
    assert Exec([RunTime], st2, ord, fuel) == Abort;
    assert Exec([], st2, ord, fuel) == Done(st2);
    hide Step, EvalBool;
    StepPut(st2, target, t, st.heap[t].m, key, x, Get(Var(via), Var(elem)), ord, fuel);
    ExecStep(ss, st0, ord, fuel);
    assert ss[1..] == [get, guard, put];
    ExecStep([get, guard, put], st1, ord, fuel);
    assert [get, guard, put][1..] == [guard, put];
    ExecStep([guard, put], st2, ord, fuel);
    assert [guard, put][1..] == [put];
    ExecOne(put, st2, ord, fuel);
  }

  lemma {:induction false} GuardedBody(target: Name, t: nat, key: Name, elem: Name, via: Name, p: map<Value, Value>,
                                       b: nat, m: map<Value, Value>, h: nat, f: Frame, k: nat, ord: Order, fuel: nat)
    returns (s: Stmt)
    requires key != Fresh("dom", k + 3) && key != elem && elem != Fresh("dom", k + 3)
    requires LoopNames(f, target, t, {key, elem, Fresh("dom", k + 3)})
    requires FrameHolds(f, Fresh("tmpMap", k + 1), h, m) && FrameHolds(f, via, b, p)
    ensures s == IterMapLoop(key, Some(elem), GuardedPut(target, key, elem, via), k) && s.ForEach?
    ensures OverFramed(s, m.Keys, f)
    ensures BodyActs(s, ThroughActs(m, p), t, f, {key, elem, Fresh("dom", k + 3)}, ord, fuel)
  {
    hide Exec, Step, Eval, EvalVal, EvalMap, EvalColl, GuardedPut;
    var dom, vars := Fresh("dom", k + 3), {key, elem, Fresh("dom", k + 3)};
    var tmp := Fresh("tmpMap", k + 1);
    var gp := GuardedPut(target, key, elem, via);
    s := IterMapLoop(key, Some(elem), gp, k);
    assert s.body == [Set(key, Var(dom)), Set(elem, Get(Var(tmp), Var(dom)))] + gp;
    OverCopy(f, key, Some(elem), gp, k, m, h);
    forall st, x | x in m && Framed(st, f) && t < |st.heap| && st.heap[t].MapObj?
      ensures EntersOne(Exec(s.body, st.Bind(dom, Val(x)), ord, fuel), st, x, ThroughActs(m, p)[x], t, f, vars)
    {
      GuardedTurn(st, target, t, key, elem, dom, tmp, h, m, via, b, p, x, ord, fuel);
      if m[x] in p {
        assert Framed(ThroughState(st, t, key, elem, dom, x, m[x], p[m[x]]), f);
      }
    }
  }

  lemma {:induction false} GuardedLoop(st: State, over: Name, a: nat, m: map<Value, Value>, target: Name, t: nat,
                                       via: Name, b: nat, p: map<Value, Value>, key: Name, elem: Name, k: nat,
                                       ord: Order, fuel: nat)
    requires AnyOrder(ord) && Holds(st, over, a, m) && Holds(st, target, t, map[]) && Holds(st, via, b, p) && b != t
    requires key != elem && {key, elem} !! {Fresh("dom", k + 3), Fresh("tmpMap", k + 1)}
    requires {target, via} !! {key, elem, Fresh("dom", k + 3), Fresh("tmpMap", k + 1)}
    ensures var r := Exec(IterMapCode(over, key, Some(elem), GuardedPut(target, key, elem, via), k), st, ord, fuel);
            if m.Values <= p.Keys
            then LoopDone(r, st, t, Through(m, p), {key, elem, Fresh("dom", k + 3), Fresh("tmpMap", k + 1)})
            else r == Abort
  {
    var h, vars := |st.heap|, {key, elem, Fresh("dom", k + 3)};
    assert key != Fresh("dom", k + 3) && elem != Fresh("dom", k + 3);
    assert vars !! {target, via, Fresh("tmpMap", k + 1)} && Fresh("tmpMap", k + 1) !in {target, via};
    assert vars + {Fresh("tmpMap", k + 1)} == {key, elem, Fresh("dom", k + 3), Fresh("tmpMap", k + 1)};
    if m.Values <= p.Keys { assert map[] + Through(m, p) == Through(m, p); }
    hide Exec, Step, Eval, AnyOrder, BodyActs, OverFramed, IterMapCode, IterMapLoop, ViaFrame, LoopNames, FrameHolds,
        Framed;
    hide SomeFail, Entered, Through, ThroughActs, GuardedPut;
    var f, gp := ViaFrame(target, t, via, b, p, m, h, k), GuardedPut(target, key, elem, via);
    ViaFrameFits(st, m, target, t, map[], via, b, p, vars, k);
    var s := GuardedBody(target, t, key, elem, via, p, b, m, h, f, k, ord, fuel);
    CopiedLoop(st, over, a, m, t, map[], key, Some(elem), gp, ThroughActs(m, p), f, vars, k, ord, fuel);
    if m.Values <= p.Keys { ThroughActsEnter(m, p, map[]); } else { SomethingFails(m, p); }
  }

  lemma {:induction false} SomethingFails(m: map<Value, Value>, p: map<Value, Value>)
    requires !(m.Values <= p.Keys)
    ensures SomeFail(ThroughActs(m, p), m.Keys)
  {
    var v :| v in m.Values && v !in p;
    var x :| x in m && m[x] == v;
    assert ThroughActs(m, p)[x].Fail?;
  }

  /** Every reference held in a variable refers to an existing object. */
  ghost predicate NoDangling(st: State) {
    forall n :: n in st.store && st.store[n].Ref? ==> st.store[n].addr < |st.heap|
  }

  ghost predicate ComposeSpec(r: Outcome, st: State, v1: Name, v2: Name, res: Name, k: nat)
    requires v1 in st.store && v2 in st.store
  {
    if !st.IsMapAt(st.store[v1]) || !st.IsMapAt(st.store[v2]) then r == Abort
    else
      var p, m := st.heap[st.store[v1].addr].m, st.heap[st.store[v2].addr].m;
      if m.Values <= p.Keys then Returns(r, st, res, Through(m, p), k) else r == Abort
  }

  /** st1 is st with objects added and only variables of vars set. */
  ghost predicate Grows(st: State, st1: State, vars: set<Name>) {
    && |st.heap| <= |st1.heap| && (forall a :: 0 <= a < |st.heap| ==> st1.heap[a] == st.heap[a])
    && (forall n :: n in st.store && n !in vars ==> n in st1.store && st1.store[n] == st.store[n])
  }

  /** All that existed before is as it was. */
  ghost predicate Keeps(st: State, st1: State, k: nat) {
    && |st.heap| <= |st1.heap| && (forall a :: 0 <= a < |st.heap| ==> st1.heap[a] == st.heap[a])
    && (forall n :: n in st.store && Old(n, k) ==> n in st1.store && st1.store[n] == st.store[n])
  }

  lemma {:induction false} KeepsThenLoop(st: State, st1: State, st2: State, t: nat, vars: set<Name>, res: Name, k: nat)
    requires Keeps(st, st1, k) && Extends(st1, st2, t, vars) && t >= |st.heap|
    requires forall n :: n in vars ==> !Old(n, k)
    ensures Preserves(st, st2, res, k)
  {
  }

  lemma {:induction false} AllocEmpty(n: Name, st: State, ord: Order, fuel: nat)
    ensures Step(Alloc(n, EmptyMap), st, ord, fuel)
            == Done(State(st.store[n := Ref(|st.heap|)], st.heap + [MapObj(map[])], st.ticks))
  {
  }

  lemma {:induction false} TestFirstRuns(st: State, v1: Name, isMap1: bool, k: nat, ord: Order, fuel: nat)
    requires v1 in st.store && v1 != Fresh("tmpMap1", k + 1) && (isMap1 ==> st.IsMapAt(st.store[v1]))
    requires st.store[v1].Ref? ==> st.store[v1].addr < |st.heap|
    ensures var r := Exec(TestFirst(v1, isMap1, k), st, ord, fuel);
            if !st.IsMapAt(st.store[v1]) then r == Abort
            else r.Done? && Grows(st, r.st, {Fresh("tmpMap1", k + 1)})
                 && FirstName(v1, isMap1, k) in r.st.store && r.st.store[FirstName(v1, isMap1, k)] == st.store[v1]
  {
    if !isMap1 {
      var tmp, ok := Fresh("tmpMap1", k + 1), st.IsMapAt(st.store[v1]);
      var s0, s1, s2 := Alloc(tmp, EmptyMap), If(Not(IsMap(Var(v1))), [RunTime], []), Set(tmp, Cast(Var(v1)));
      var st1 := State(st.store[tmp := Ref(|st.heap|)], st.heap + [MapObj(map[])], st.ticks);
      AllocEmpty(tmp, st, ord, fuel);
      assert Eval(Var(v1), st1) == Some(st.store[v1]);
      assert st1.IsMapAt(st.store[v1]) == ok;
      assert EvalBool(IsMap(Var(v1)), st1) == Some(ok);
      assert EvalBool(s1.cond, st1) == Some(!ok);
      assert Eval(Cast(Var(v1)), st1) == if ok then Some(st.store[v1]) else None;
      IfBranches(s1, st1, !ok, ord, fuel);
      assert Exec([RunTime], st1, ord, fuel) == Abort;
      assert Exec([], st1, ord, fuel) == Done(st1);
      assert ok ==> Step(s2, st1, ord, fuel) == Done(st1.Bind(tmp, st.store[v1]));
      hide Step, Eval, EvalBool;
      ExecStep([s0, s1, s2], st, ord, fuel);
      assert [s0, s1, s2][1..] == [s1, s2];
      ExecStep([s1, s2], st1, ord, fuel);
      assert [s1, s2][1..] == [s2];
      ExecOne(s2, st1, ord, fuel);
    }
  }

  lemma {:induction false} TestSecondRuns(st: State, v2: Name, isMap2: bool, j: nat, ord: Order, fuel: nat)
    requires v2 in st.store && v2 != Fresh("tmpMap2", j) && (isMap2 ==> st.IsMapAt(st.store[v2]))
    requires st.store[v2].Ref? ==> st.store[v2].addr < |st.heap|
    ensures var r := Exec(TestSecond(v2, isMap2, j), st, ord, fuel);
            if !st.IsMapAt(st.store[v2]) then r == Abort
            else r.Done? && Grows(st, r.st, {Fresh("tmpMap2", j)})
                 && SecondName(v2, isMap2, j) in r.st.store && r.st.store[SecondName(v2, isMap2, j)] == st.store[v2]
  {
    if !isMap2 {
      var tmp, ok := Fresh("tmpMap2", j), st.IsMapAt(st.store[v2]);
      var asgn := Set(tmp, Cast(Var(v2)));
      var s0, s1 := Alloc(tmp, EmptyMap), If(IsMap(Var(v2)), [asgn], [RunTime]);
      var st1 := State(st.store[tmp := Ref(|st.heap|)], st.heap + [MapObj(map[])], st.ticks);
      AllocEmpty(tmp, st, ord, fuel);
      assert Eval(Var(v2), st1) == Some(st.store[v2]);
      assert st1.IsMapAt(st.store[v2]) == ok;
      assert EvalBool(s1.cond, st1) == Some(ok);
      assert Eval(Cast(Var(v2)), st1) == if ok then Some(st.store[v2]) else None;
      IfBranches(s1, st1, ok, ord, fuel);
      assert Exec([RunTime], st1, ord, fuel) == Abort;
      assert ok ==> Step(asgn, st1, ord, fuel) == Done(st1.Bind(tmp, st.store[v2]));
      hide Step, Eval, EvalBool;
      ExecOne(asgn, st1, ord, fuel);
      ExecStep([s0, s1], st, ord, fuel);
      assert [s0, s1][1..] == [s1];
      ExecOne(s1, st1, ord, fuel);
    }
  }

  /** Both operands, tested where their static types require it, after target was allocated. */
  ghost predicate OperandsReady(st: State, st2: State, v1: Name, isMap1: bool, v2: Name, isMap2: bool, k: nat)
    requires v1 in st.store && v2 in st.store
  {
    && Keeps(st, st2, k) && Holds(st2, Fresh("tmpMap", k), |st.heap|, map[])
    && FirstName(v1, isMap1, k) in st2.store && st2.store[FirstName(v1, isMap1, k)] == st.store[v1]
    && SecondName(v2, isMap2, SecondAt(isMap1, k)) in st2.store
       && st2.store[SecondName(v2, isMap2, SecondAt(isMap1, k))] == st.store[v2]
  }

  lemma {:induction false} GrowsReady(st: State, st1: State, st2: State, st3: State, v1: Name, isMap1: bool, v2: Name,
                                      isMap2: bool, k: nat)
    requires v1 in st.store && v2 in st.store && Old(v1, k) && Old(v2, k)
    requires st1 == State(st.store[Fresh("tmpMap", k) := Ref(|st.heap|)], st.heap + [MapObj(map[])], st.ticks)
    requires Grows(st1, st2, {Fresh("tmpMap1", k + 1)}) && Grows(st2, st3, {Fresh("tmpMap2", SecondAt(isMap1, k))})
    requires FirstName(v1, isMap1, k) in st2.store && st2.store[FirstName(v1, isMap1, k)] == st.store[v1]
    requires SecondName(v2, isMap2, SecondAt(isMap1, k)) in st3.store
            && st3.store[SecondName(v2, isMap2, SecondAt(isMap1, k))] == st.store[v2]
    ensures OperandsReady(st, st3, v1, isMap1, v2, isMap2, k)
  {
  }

  /** The statements before the loop: an abort, or both operands at hand. */
  lemma {:induction false} ComposeHead(st: State, v1: Name, isMap1: bool, v2: Name, isMap2: bool, k: nat, ord: Order,
                                       fuel: nat)
    requires v1 in st.store && v2 in st.store && NoDangling(st)
    requires Old(v1, k) && Old(v2, k)
    requires (isMap1 ==> st.IsMapAt(st.store[v1])) && (isMap2 ==> st.IsMapAt(st.store[v2]))
    ensures var r := Exec([Alloc(Fresh("tmpMap", k), EmptyMap)] + TestFirst(v1, isMap1, k)
            + TestSecond(v2, isMap2, SecondAt(isMap1, k)), st, ord, fuel);
            if !st.IsMapAt(st.store[v1]) || !st.IsMapAt(st.store[v2]) then r == Abort
            else r.Done? && OperandsReady(st, r.st, v1, isMap1, v2, isMap2, k)
  {
    var tmp := Fresh("tmpMap", k);
    var s0 := Alloc(tmp, EmptyMap);
    var st1 := State(st.store[tmp := Ref(|st.heap|)], st.heap + [MapObj(map[])], st.ticks);
    AllocEmpty(tmp, st, ord, fuel);
    hide Step, Exec, TestFirst, TestSecond, FirstName, SecondName, OperandsReady;
    ExecOne(s0, st, ord, fuel);
    ExecAppend([s0], TestFirst(v1, isMap1, k), st, ord, fuel);
    ExecAppend([s0] + TestFirst(v1, isMap1, k), TestSecond(v2, isMap2, SecondAt(isMap1, k)), st, ord, fuel);
    TestFirstRuns(st1, v1, isMap1, k, ord, fuel);
    if st.IsMapAt(st.store[v1]) {
      var st2 := Exec(TestFirst(v1, isMap1, k), st1, ord, fuel).st;
      TestSecondRuns(st2, v2, isMap2, SecondAt(isMap1, k), ord, fuel);
      if st.IsMapAt(st.store[v2]) {
        GrowsReady(st, st1, st2, Exec(TestSecond(v2, isMap2, SecondAt(isMap1, k)), st2, ord, fuel).st, v1, isMap1, v2,
            isMap2, k);
      }
    }
  }

  /** The loop and the assignment of the result, with both operands at hand. */
  lemma {:induction false} ComposeTail(st: State, st1: State, v1: Name, isMap1: bool, v2: Name, isMap2: bool,
                                       res: Name, k: nat, ord: Order, fuel: nat)
    requires AnyOrder(ord) && v1 in st.store && v2 in st.store && NoDangling(st)
    requires Old(v1, k) && Old(v2, k) && Old(res, k) && OperandsReady(st, st1, v1, isMap1, v2, isMap2, k)
    requires st.IsMapAt(st.store[v1]) && st.IsMapAt(st.store[v2])
    ensures ComposeSpec(Exec(ComposeLoop(v1, isMap1, v2, isMap2, k) + [Set(res, Var(Fresh("tmpMap", k)))], st1, ord,
            fuel),
                        st, v1, v2, res, k)
  {
    hide Exec, Step, Eval, GuardedPut, IterMapCode, NoDangling, AnyOrder;
    var j, l := SecondAt(isMap1, k), KeyAt(isMap1, isMap2, k);
    var target, key, elem := Fresh("tmpMap", k), Fresh("key", l), Fresh("elem", l + 1);
    var first, second := FirstName(v1, isMap1, k), SecondName(v2, isMap2, j);
    var loop := ComposeLoop(v1, isMap1, v2, isMap2, k);
    var last := Set(res, Var(target));
    var a, b, t := st.store[v2].addr, st.store[v1].addr, |st.heap|;
    var m, p := st.heap[a].m, st.heap[b].m;
    GuardedLoop(st1, second, a, m, target, t, first, b, p, key, elem, l + 2, ord, fuel);
    ExecAppend(loop, [last], st1, ord, fuel);
    if m.Values <= p.Keys {
      var st2 := Exec(loop, st1, ord, fuel).st;
      KeepsThenLoop(st, st1, st2, t, {Fresh("tmpMap", l + 3), Fresh("dom", l + 5), key, elem}, res, k);
      ReturnLast(st, st2, target, t, Through(m, p), res, k, ord, fuel);
    }
  }

  function ComposeLoop(v1: Name, isMap1: bool, v2: Name, isMap2: bool, k: nat): seq<Stmt> {
    var l := KeyAt(isMap1, isMap2, k);
    var key, elem := Fresh("key", l), Fresh("elem", l + 1);
    IterMapCode(SecondName(v2, isMap2, SecondAt(isMap1, k)), key, Some(elem),
                GuardedPut(Fresh("tmpMap", k), key, elem, FirstName(v1, isMap1, k)), l + 2)
  }

  /** The code emitted for composition computes it for all maps in any iteration order;
      it aborts exactly when an operand is no map or rng v2 leaves dom v1. */
  lemma {:induction false} ComposeComputes(st: State, v1: Name, isMap1: bool, v2: Name, isMap2: bool, res: Name,
                                           k: nat, ord: Order, fuel: nat)
    requires AnyOrder(ord) && v1 in st.store && v2 in st.store && NoDangling(st)
    requires Old(v1, k) && Old(v2, k) && Old(res, k)
    requires (isMap1 ==> st.IsMapAt(st.store[v1])) && (isMap2 ==> st.IsMapAt(st.store[v2]))
    ensures ComposeSpec(Exec(ComposeCode(v1, isMap1, v2, isMap2, res, k), st, ord, fuel), st, v1, v2, res, k)
  {
    var head := [Alloc(Fresh("tmpMap", k), EmptyMap)] + TestFirst(v1, isMap1, k)
        + TestSecond(v2, isMap2, SecondAt(isMap1, k));
    var tail := ComposeLoop(v1, isMap1, v2, isMap2, k) + [Set(res, Var(Fresh("tmpMap", k)))];
    assert ComposeCode(v1, isMap1, v2, isMap2, res, k) == head + tail by {
      hide TestFirst, TestSecond, IterMapCode, GuardedPut;
    }
    hide Exec, TestFirst, TestSecond, ComposeLoop, ComposeCode, OperandsReady, NoDangling, AnyOrder, Returns;
    ComposeHead(st, v1, isMap1, v2, isMap2, k, ord, fuel);
    ExecAppend(head, tail, st, ord, fuel);
    if st.IsMapAt(st.store[v1]) && st.IsMapAt(st.store[v2]) {
      ComposeTail(st, Exec(head, st, ord, fuel).st, v1, isMap1, v2, isMap2, res, k, ord, fuel);
    }
  }

  // ----- Merge: v1 munion v2 -----

  /** GenMapMerge, Java branch: compare on the common domain, then override a copy. */
  function MergeCode(v1: Name, isMap1: bool, v2: Name, isMap2: bool, res: Name, k: nat): seq<Stmt> {
    MergeHead(v1, isMap1, v2, isMap2, k)
    + IterSetCode(Elements(Var(Fresh("com", k))), Var(Fresh("all_applies", k + 1)), Fresh("d", k + 2), [SameValue(k)],
        k + 5)
    + MergeTail(res, k)
  }

  function MergeHead(v1: Name, isMap1: bool, v2: Name, isMap2: bool, k: nat): seq<Stmt> {
    var com, m1, m2 := Fresh("com", k), Fresh("m1", k + 3), Fresh("m2", k + 4);
    [Alloc(m1, CopyMap(AsMap(v1, isMap1))),
     Set(m2, AsMap(v2, isMap2)),
     Alloc(com, CopySet(KeySet(Var(m1)))),
     RetainAll(Var(com), KeySet(Var(m2))),
     Set(Fresh("all_applies", k + 1), BoolLit(true))]
  }

  function SameValue(k: nat): Stmt {
    var d := Fresh("d", k + 2);
    Set(Fresh("all_applies", k + 1), Equals(Get(Var(Fresh("m1", k + 3)), Var(d)), Get(Var(Fresh("m2", k + 4)), Var(d))))
  }

  function MergeTail(res: Name, k: nat): seq<Stmt> {
    [If(Not(Var(Fresh("all_applies", k + 1))), [RunTime], []),
     PutAll(Var(Fresh("m1", k + 3)), Var(Fresh("m2", k + 4))),
     Set(res, Var(Fresh("m1", k + 3)))]
  }

  ghost predicate Compatible(m1: map<Value, Value>, m2: map<Value, Value>) {
    forall x :: x in m1 && x in m2 ==> m1[x] == m2[x]
  }

  /** What the comparing loop relies on: both maps and its private set of common keys. */
  ghost predicate MergeState(st: State, k: nat, t: nat, m1: map<Value, Value>, b: nat, m2: map<Value, Value>,
                             set0: nat, all: set<Value>) {
    && Holds(st, Fresh("m1", k + 3), t, m1) && Holds(st, Fresh("m2", k + 4), b, m2)
    && Fresh("tmpSet", k + 6) in st.store && st.store[Fresh("tmpSet", k + 6)] == Ref(set0)
    && set0 < |st.heap| && st.heap[set0] == SetObj(all)
    && all == m1.Keys * m2.Keys
  }

  ghost function MergeLoop(k: nat): Stmt {
    ForEach(Elements(Var(Fresh("tmpSet", k + 6))), Var(Fresh("all_applies", k + 1)), Fresh("d", k + 2), [SameValue(k)])
  }

  /** The state after looking at one more common key. */
  ghost function Compared(st: State, k: nat, x: Value, same: bool): State {
    st.Bind(Fresh("d", k + 2), Val(x)).Bind(Fresh("all_applies", k + 1), Bool(same))
  }

  lemma {:induction false} CompareTurn(st: State, k: nat, t: nat, m1: map<Value, Value>, b: nat,
                                       m2: map<Value, Value>, set0: nat, all: set<Value>, x: Value, ord: Order,
                                       fuel: nat)
    requires MergeState(st, k, t, m1, b, m2, set0, all) && x in all
    ensures EvalColl(Elements(Var(Fresh("tmpSet", k + 6))), st) == Some(all)
    ensures Exec([SameValue(k)], st.Bind(Fresh("d", k + 2), Val(x)), ord, fuel)
            == Done(Compared(st, k, x, m1[x] == m2[x]))
  {
    var d, st0 := Fresh("d", k + 2), st.Bind(Fresh("d", k + 2), Val(x));
    assert Eval(Var(Fresh("tmpSet", k + 6)), st) == Some(Ref(set0));
    assert EvalSet(Var(Fresh("tmpSet", k + 6)), st) == Some(all);
    EvalGet(st0, Fresh("m1", k + 3), t, m1, d, x);
    EvalGet(st0, Fresh("m2", k + 4), b, m2, d, x);
    assert EvalVal(Get(Var(Fresh("m1", k + 3)), Var(d)), st0) == Some(m1[x]);
    assert EvalVal(Get(Var(Fresh("m2", k + 4)), Var(d)), st0) == Some(m2[x]);
    assert Step(SameValue(k), st0, ord, fuel) == Done(Compared(st, k, x, m1[x] == m2[x]));
    ExecOne(SameValue(k), st0, ord, fuel);
  }

  lemma {:induction false} ApplyCond(st: State, k: nat, go: bool)
    requires Fresh("all_applies", k + 1) in st.store && st.store[Fresh("all_applies", k + 1)] == Bool(go)
    ensures EvalBool(Var(Fresh("all_applies", k + 1)), st) == Some(go)
  {
    assert Eval(Var(Fresh("all_applies", k + 1)), st) == Some(Bool(go));
  }

  lemma {:induction false} CompareAll(st: State, k: nat, t: nat, m1: map<Value, Value>, b: nat, m2: map<Value, Value>,
                                      set0: nat, all: set<Value>, pending: seq<Value>, go: bool, ord: Order,
                                      fuel: nat)
    requires MergeState(st, k, t, m1, b, m2, set0, all) && ToSet(pending) <= all
    requires Fresh("all_applies", k + 1) in st.store && st.store[Fresh("all_applies", k + 1)] == Bool(go)
    ensures var r := Iterate(MergeLoop(k), all, pending, st, ord, fuel);
            && r.Done? && r.st.heap == st.heap && Grows(st, r.st, {Fresh("d", k + 2), Fresh("all_applies", k + 1)})
            && Fresh("all_applies", k + 1) in r.st.store
            && r.st.store[Fresh("all_applies", k + 1)]
               == Bool(go && forall x :: x in pending && x in m1 && x in m2 ==> m1[x] == m2[x])
    decreases |pending|
  {
    hide Exec, Eval, EvalColl, EvalBool;
    if pending != [] {
      ApplyCond(st, k, go);
      if go {
        var x, rest := pending[0], pending[1..];
        assert x in ToSet(pending) && ToSet(rest) <= ToSet(pending);
        CompareTurn(st, k, t, m1, b, m2, set0, all, x, ord, fuel);
        var st1 := Compared(st, k, x, m1[x] == m2[x]);
        CompareAll(st1, k, t, m1, b, m2, set0, all, rest, m1[x] == m2[x], ord, fuel);
        assert pending == [x] + rest;
      }
    }
  }

  ghost predicate MergeSpec(r: Outcome, st: State, v1: Name, v2: Name, res: Name, k: nat)
    requires v1 in st.store && v2 in st.store
  {
    if !st.IsMapAt(st.store[v1]) || !st.IsMapAt(st.store[v2]) then r == Abort
    else
      var m1, m2 := st.heap[st.store[v1].addr].m, st.heap[st.store[v2].addr].m;
      if Compatible(m1, m2) then Returns(r, st, res, m1 + m2, k) else r == Abort
  }

  lemma {:induction false} EvalAsMap(st: State, v: Name, isMap: bool)
    requires v in st.store
    ensures EvalMap(AsMap(v, isMap), st) == if st.IsMapAt(st.store[v]) then Some(st.heap[st.store[v].addr].m) else None
    ensures st.IsMapAt(st.store[v]) ==> Eval(AsMap(v, isMap), st) == Some(st.store[v])
    ensures !st.IsMapAt(st.store[v]) && !isMap ==> Eval(AsMap(v, isMap), st) == None
  {
    assert Eval(Var(v), st) == Some(st.store[v]);
    assert Eval(AsMap(v, isMap), st) == if isMap || st.IsMapAt(st.store[v]) then Some(st.store[v]) else None;
  }

  lemma {:induction false} MergeHeadRuns(st: State, v1: Name, isMap1: bool, v2: Name, isMap2: bool, k: nat,
                                         ord: Order, fuel: nat)
    requires v1 in st.store && v2 in st.store && NoDangling(st) && Old(v1, k) && Old(v2, k)
    requires (isMap1 ==> st.IsMapAt(st.store[v1])) && (isMap2 ==> st.IsMapAt(st.store[v2]))
    ensures var r := Exec(MergeHead(v1, isMap1, v2, isMap2, k), st, ord, fuel);
            if !st.IsMapAt(st.store[v1]) || !st.IsMapAt(st.store[v2]) then r == Abort
            else
              var m1, m2 := st.heap[st.store[v1].addr].m, st.heap[st.store[v2].addr].m;
              && r.Done? && Keeps(st, r.st, k) && |r.st.heap| == |st.heap| + 2
              && Holds(r.st, Fresh("m1", k + 3), |st.heap|, m1)
                 && Holds(r.st, Fresh("m2", k + 4), st.store[v2].addr, m2)
              && Fresh("com", k) in r.st.store && r.st.store[Fresh("com", k)] == Ref(|st.heap| + 1)
              && r.st.heap[|st.heap| + 1] == SetObj(m1.Keys * m2.Keys)
              && Fresh("all_applies", k + 1) in r.st.store && r.st.store[Fresh("all_applies", k + 1)] == Bool(true)
  {
    var com, m1n, m2n := Fresh("com", k), Fresh("m1", k + 3), Fresh("m2", k + 4);
    var ss := MergeHead(v1, isMap1, v2, isMap2, k);
    EvalAsMap(st, v1, isMap1);
    hide Exec;
    ExecStep(ss, st, ord, fuel);
    if st.IsMapAt(st.store[v1]) {
      var t, m1 := |st.heap|, st.heap[st.store[v1].addr].m;
      var st1 := State(st.store[m1n := Ref(t)], st.heap + [MapObj(m1)], st.ticks);
      assert Step(ss[0], st, ord, fuel) == Done(st1);
      MergeSecond(st1, ss, t, m1, v2, isMap2, k, ord, fuel);
    }
  }

  lemma {:induction false} MergeSecond(st: State, ss: seq<Stmt>, t: nat, m1: map<Value, Value>, v2: Name,
                                       isMap2: bool, k: nat, ord: Order, fuel: nat)
    requires v2 in st.store && Old(v2, k) && Holds(st, Fresh("m1", k + 3), t, m1) && |ss| == 5
    requires ss[1..] == [Set(Fresh("m2", k + 4), AsMap(v2, isMap2)),
                         Alloc(Fresh("com", k), CopySet(KeySet(Var(Fresh("m1", k + 3))))),
                         RetainAll(Var(Fresh("com", k)), KeySet(Var(Fresh("m2", k + 4)))),
                         Set(Fresh("all_applies", k + 1), BoolLit(true))]
    requires isMap2 ==> st.IsMapAt(st.store[v2])
    ensures Exec(ss[1..], st, ord, fuel)
            == if !st.IsMapAt(st.store[v2]) then Abort
               else Done(State(st.store[Fresh("m2", k + 4) := st.store[v2]][Fresh("com", k) := Ref(|st.heap|)]
                                       [Fresh("all_applies", k + 1) := Bool(true)],
                               st.heap + [SetObj(m1.Keys * st.heap[st.store[v2].addr].m.Keys)], st.ticks))
  {
    hide Exec;
    EvalAsMap(st, v2, isMap2);
    ExecStep(ss[1..], st, ord, fuel);
    if st.IsMapAt(st.store[v2]) {
      var b, m2 := st.store[v2].addr, st.heap[st.store[v2].addr].m;
      var st2 := st.Bind(Fresh("m2", k + 4), Ref(b));
      assert Step(ss[1], st, ord, fuel) == Done(st2);
      assert ss[1..][1..] == ss[2..];
      SetUpCommon(st2, ss[2..], t, m1, b, m2, k, ord, fuel);
    }
  }

  lemma {:induction false} SetUpCommon(st: State, ss: seq<Stmt>, t: nat, m1: map<Value, Value>, b: nat,
                                       m2: map<Value, Value>, k: nat, ord: Order, fuel: nat)
    requires Holds(st, Fresh("m1", k + 3), t, m1) && Holds(st, Fresh("m2", k + 4), b, m2)
    requires ss == [Alloc(Fresh("com", k), CopySet(KeySet(Var(Fresh("m1", k + 3))))),
                    RetainAll(Var(Fresh("com", k)), KeySet(Var(Fresh("m2", k + 4)))),
                    Set(Fresh("all_applies", k + 1), BoolLit(true))]
    ensures Exec(ss, st, ord, fuel)
            == Done(State(st.store[Fresh("com", k) := Ref(|st.heap|)][Fresh("all_applies", k + 1) := Bool(true)],
                          st.heap + [SetObj(m1.Keys * m2.Keys)], st.ticks))
  {
    var com := Fresh("com", k);
    var st1 := State(st.store[com := Ref(|st.heap|)], st.heap + [SetObj(m1.Keys)], st.ticks);
    EvalMapVar(st, Fresh("m1", k + 3), t, m1);
    assert Step(ss[0], st, ord, fuel) == Done(st1);
    EvalMapVar(st1, Fresh("m2", k + 4), b, m2);
    assert Eval(Var(com), st1) == Some(Ref(|st.heap|));
    var st2 := st1.WithObj(|st.heap|, SetObj(m1.Keys * m2.Keys));
    assert st2.heap == st.heap + [SetObj(m1.Keys * m2.Keys)];
    assert Step(ss[1], st1, ord, fuel) == Done(st2);
    assert Step(ss[2], st2, ord, fuel) == Done(st2.Bind(Fresh("all_applies", k + 1), Bool(true)));
    hide Step;
    ExecStep(ss, st, ord, fuel);
    ExecStep(ss[1..], st1, ord, fuel);
    assert ss[1..][1..] == [ss[2]];
    ExecOne(ss[2], st2, ord, fuel);
  }

  /** The comparing loop leaves in all_applies whether the operands agree. */
  lemma {:induction false} CompareLoop(st: State, t: nat, m1: map<Value, Value>, b: nat, m2: map<Value, Value>,
                                       c: nat, k: nat, ord: Order, fuel: nat)
    requires AnyOrder(ord)
    requires Holds(st, Fresh("m1", k + 3), t, m1) && Holds(st, Fresh("m2", k + 4), b, m2)
    requires Fresh("com", k) in st.store && st.store[Fresh("com", k)] == Ref(c) && c < |st.heap|
            && st.heap[c] == SetObj(m1.Keys * m2.Keys)
    requires Fresh("all_applies", k + 1) in st.store && st.store[Fresh("all_applies", k + 1)] == Bool(true)
    ensures var r := Exec(IterSetCode(Elements(Var(Fresh("com", k))), Var(Fresh("all_applies", k + 1)),
            Fresh("d", k + 2), [SameValue(k)], k + 5),
                          st, ord, fuel);
            && r.Done? && Grows(st, r.st, {Fresh("d", k + 2), Fresh("all_applies", k + 1), Fresh("tmpSet", k + 6)})
            && Fresh("all_applies", k + 1) in r.st.store
               && r.st.store[Fresh("all_applies", k + 1)] == Bool(Compatible(m1, m2))
  {
    var all, tmp := m1.Keys * m2.Keys, Fresh("tmpSet", k + 6);
    var ss := IterSetCode(Elements(Var(Fresh("com", k))), Var(Fresh("all_applies", k + 1)), Fresh("d", k + 2),
        [SameValue(k)], k + 5);
    var st1 := State(st.store[tmp := Ref(|st.heap|)], st.heap + [SetObj(all)], st.ticks);
    assert Eval(Var(Fresh("com", k)), st) == Some(Ref(c));
    assert EvalSet(Var(Fresh("com", k)), st) == Some(all);
    assert EvalColl(Elements(Var(Fresh("com", k))), st) == Some(all);
    assert Step(ss[0], st, ord, fuel) == Done(st1);
    assert ss[1..] == [MergeLoop(k)];
    assert Eval(Var(tmp), st1) == Some(Ref(|st.heap|));
    assert EvalSet(Var(tmp), st1) == Some(all);
    assert EvalColl(Elements(Var(tmp)), st1) == Some(all);
    var q := ord(st1.ticks, all);
    var st2 := st1.(ticks := st1.ticks + 1);
    assert Step(MergeLoop(k), st1, ord, fuel) == Iterate(MergeLoop(k), all, q, st2, ord, fuel);
    hide Step, Eval, EvalSet, EvalColl, AnyOrder, Iterate;
    ExecStep(ss, st, ord, fuel);
    ExecOne(MergeLoop(k), st1, ord, fuel);
    assert Enumerates(q, all) && ToSet(q) == all by { OrderEnumerates(ord, st1.ticks, all); }
    CompareAll(st2, k, t, m1, b, m2, |st.heap|, all, q, true, ord, fuel);
    assert Compatible(m1, m2) <==> forall x :: x in q && x in m1 && x in m2 ==> m1[x] == m2[x];
  }

  lemma {:induction false} MergeTailRuns(st: State, res: Name, t: nat, m1: map<Value, Value>, b: nat,
                                         m2: map<Value, Value>, ok: bool, k: nat, ord: Order, fuel: nat)
    requires Holds(st, Fresh("m1", k + 3), t, m1) && Holds(st, Fresh("m2", k + 4), b, m2) && b != t
    requires Fresh("all_applies", k + 1) in st.store && st.store[Fresh("all_applies", k + 1)] == Bool(ok)
    ensures Exec(MergeTail(res, k), st, ord, fuel)
            == if ok then Done(st.WithObj(t, MapObj(m1 + m2)).Bind(res, Ref(t))) else Abort
  {
    var ss := MergeTail(res, k);
    ApplyCond(st, k, ok);
    assert EvalBool(ss[0].cond, st) == Some(!ok);
    IfBranches(ss[0], st, !ok, ord, fuel);
    assert Exec([RunTime], st, ord, fuel) == Abort;
    assert Exec([], st, ord, fuel) == Done(st);
    EvalMapVar(st, Fresh("m1", k + 3), t, m1);
    EvalMapVar(st, Fresh("m2", k + 4), b, m2);
    var st1 := st.WithObj(t, MapObj(m1 + m2));
    assert Step(ss[1], st, ord, fuel) == Done(st1);
    EvalMapVar(st1, Fresh("m1", k + 3), t, m1 + m2);
    assert Step(ss[2], st1, ord, fuel) == Done(st1.Bind(res, Ref(t)));
    hide Step, Eval, EvalMap, EvalBool;
    ExecStep(ss, st, ord, fuel);
    ExecStep(ss[1..], st, ord, fuel);
    assert ss[1..][1..] == [ss[2]];
    ExecOne(ss[2], st1, ord, fuel);
  }

  /** The code emitted for merge computes the union of compatible maps in any order; it
      aborts exactly when an operand is no map or the maps disagree on a shared key. */
  lemma {:induction false} MergeComputes(st: State, v1: Name, isMap1: bool, v2: Name, isMap2: bool, res: Name, k: nat,
                                         ord: Order, fuel: nat)
    requires AnyOrder(ord) && v1 in st.store && v2 in st.store && NoDangling(st)
    requires Old(v1, k) && Old(v2, k) && Old(res, k)
    requires (isMap1 ==> st.IsMapAt(st.store[v1])) && (isMap2 ==> st.IsMapAt(st.store[v2]))
    ensures MergeSpec(Exec(MergeCode(v1, isMap1, v2, isMap2, res, k), st, ord, fuel), st, v1, v2, res, k)
  {
    hide Exec, Step, Eval, MergeHead, MergeTail, IterSetCode, Returns, Compatible, SameValue;
    var head, tail := MergeHead(v1, isMap1, v2, isMap2, k), MergeTail(res, k);
    var loop := IterSetCode(Elements(Var(Fresh("com", k))), Var(Fresh("all_applies", k + 1)), Fresh("d", k + 2),
        [SameValue(k)], k + 5);
    MergeHeadRuns(st, v1, isMap1, v2, isMap2, k, ord, fuel);
    assert MergeCode(v1, isMap1, v2, isMap2, res, k) == head + (loop + tail);
    ExecAppend(head, loop + tail, st, ord, fuel);
    if st.IsMapAt(st.store[v1]) && st.IsMapAt(st.store[v2]) {
      var t, b := |st.heap|, st.store[v2].addr;
      var m1, m2 := st.heap[st.store[v1].addr].m, st.heap[b].m;
      var st1 := Exec(head, st, ord, fuel).st;
      CompareLoop(st1, t, m1, b, m2, t + 1, k, ord, fuel);
      ExecAppend(loop, tail, st1, ord, fuel);
      var st2 := Exec(loop, st1, ord, fuel).st;
      MergeTailRuns(st2, res, t, m1, b, m2, Compatible(m1, m2), k, ord, fuel);
      MergeReturns(st, st1, st2, t, m1 + m2, res, k);
    }
  }

  lemma {:induction false} MergeReturns(st: State, st1: State, st2: State, t: nat, m: map<Value, Value>, res: Name,
                                        k: nat)
    requires Keeps(st, st1, k) && t == |st.heap| && t < |st1.heap|
    requires Grows(st1, st2, {Fresh("d", k + 2), Fresh("all_applies", k + 1), Fresh("tmpSet", k + 6)})
    ensures Returns(Done(st2.WithObj(t, MapObj(m)).Bind(res, Ref(t))), st, res, m, k)
  {
  }

  // ----- Restriction -----

  datatype RestrictOp = DomTo | DomBy | RngTo | RngBy

  predicate Selected(op: RestrictOp, s: set<Value>, x: Value, y: Value) {
    match op
    case DomTo => x in s
    case DomBy => x !in s
    case RngTo => y in s
    case RngBy => y !in s
  }

  /** s <: m, s <-: m, m :> s and m :-> s. */
  function Restricted(op: RestrictOp, s: set<Value>, m: map<Value, Value>): map<Value, Value> {
    map x | x in m && Selected(op, s, x, m[x]) :: m[x]
  }

  function AsSet(v: Name, isSetType: bool): Expr { if isSetType then Var(v) else CastSet(Var(v)) }

  function RestrictCond(op: RestrictOp, ss: Expr, mm: Expr, elm: Name): Expr {
    match op
    case DomTo => Contains(ss, Var(elm))
    case DomBy => Not(Contains(ss, Var(elm)))
    case RngTo => Contains(ss, Get(mm, Var(elm)))
    case RngBy => Not(Contains(ss, Get(mm, Var(elm))))
  }

  /** GenMapRestrictStmt. */
  function RestrictStmt(op: RestrictOp, ss: Expr, mm: Expr, elm: Name, tm: Name): Stmt {
    If(RestrictCond(op, ss, mm, elm), [Put(Var(tm), Var(elm), Get(mm, Var(elm)))], [])
  }

  /** GenMapRestToBy, Java branch. */
  function RestrictCode(op: RestrictOp, s: Name, isSet: bool, m: Name, isMap: bool, res: Name, k: nat): seq<Stmt> {
    var tmpMap, domM, elm := Fresh("tmpMap", k), Fresh("domM", k + 1), Fresh("elm", k + 2);
    [Alloc(tmpMap, New.EmptyMap), Alloc(domM, CopySet(KeySet(AsMap(m, isMap))))]
    + IterSetCode(Elements(Var(domM)), BoolLit(true), elm,
                  [RestrictStmt(op, AsSet(s, isSet), AsMap(m, isMap), elm, tmpMap)], k + 3)
    + [Set(res, Var(tmpMap))]
  }

  ghost predicate RestrictSpec(r: Outcome, op: RestrictOp, st: State, s: Name, m: Name, res: Name, k: nat)
    requires s in st.store && m in st.store
  {
    if !st.IsMapAt(st.store[m]) then r == Abort
    else
      var mm := st.heap[st.store[m].addr].m;
      if st.IsSetAt(st.store[s]) then Returns(r, st, res, Restricted(op, st.heap[st.store[s].addr].s, mm), k)
      else if mm == map[] then Returns(r, st, res, map[], k)
      else r == Abort
  }

  /** A set operand that is no set fails at the first key. */
  function RestrictActs(op: RestrictOp, s: Option<set<Value>>, m: map<Value, Value>): (acts: map<Value, Act>)
    ensures acts.Keys == m.Keys
  {
    map x | x in m ::
      if s.None? then Fail else if Selected(op, s.value, x, m[x]) then Enter(m[x]) else Skip
  }

  lemma {:induction false} EvalAsSet(st: State, v: Name, isSet: bool)
    requires v in st.store
    ensures EvalSet(AsSet(v, isSet), st) == if st.IsSetAt(st.store[v]) then Some(st.heap[st.store[v].addr].s) else None
  {
    assert Eval(Var(v), st) == Some(st.store[v]);
    assert Eval(AsSet(v, isSet), st) == if isSet || st.IsSetAt(st.store[v]) then Some(st.store[v]) else None;
  }

  lemma {:induction false} EvalCond(op: RestrictOp, st: State, s: Name, isSet: bool, m: Name, isMap: bool, elm: Name,
                                    x: Value, mm: map<Value, Value>)
    requires s in st.store && m in st.store && elm in st.store && st.store[elm] == Val(x)
    requires st.IsMapAt(st.store[m]) && st.heap[st.store[m].addr].m == mm && x in mm
    ensures EvalVal(Get(AsMap(m, isMap), Var(elm)), st) == Some(mm[x])
    ensures EvalBool(RestrictCond(op, AsSet(s, isSet), AsMap(m, isMap), elm), st)
            == if st.IsSetAt(st.store[s]) then Some(Selected(op, st.heap[st.store[s].addr].s, x, mm[x])) else None
  {
    var ss, me := AsSet(s, isSet), AsMap(m, isMap);
    EvalAsSet(st, s, isSet);
    EvalAsMap(st, m, isMap);
    EvalValVar(st, elm, x);
    hide AsSet, AsMap;
    var get := Get(me, Var(elm));
    assert Eval(get, st) == Some(Val(mm[x]));
    assert EvalVal(get, st) == Some(mm[x]);
    var y := if op.DomTo? || op.DomBy? then Var(elm) else get;
    var yv := if op.DomTo? || op.DomBy? then x else mm[x];
    assert EvalVal(y, st) == Some(yv);
    assert Eval(Contains(ss, y), st)
        == if st.IsSetAt(st.store[s]) then Some(Bool(yv in st.heap[st.store[s].addr].s)) else None;
    assert EvalBool(Contains(ss, y), st)
        == if st.IsSetAt(st.store[s]) then Some(yv in st.heap[st.store[s].addr].s) else None;
    if op.DomBy? || op.RngBy? {
      assert Eval(Not(Contains(ss, y)), st)
          == if st.IsSetAt(st.store[s]) then Some(Bool(yv !in st.heap[st.store[s].addr].s)) else None;
    }
  }

  ghost function SetAt(st: State, s: Name): Option<set<Value>>
    requires s in st.store
  {
    if st.IsSetAt(st.store[s]) then Some(st.heap[st.store[s].addr].s) else None
  }

  ghost predicate RestrictState(st: State, s: Name, sv: Option<set<Value>>, m: Name, mm: map<Value, Value>,
                                target: Name, t: nat, elm: Name)
  {
    && s in st.store && m in st.store && SetAt(st, s) == sv
    && st.IsMapAt(st.store[m]) && st.heap[st.store[m].addr].m == mm
    && target in st.store && st.store[target] == Ref(t) && t < |st.heap| && st.heap[t].MapObj?
    && elm !in {s, m, target}
  }

  lemma {:induction false} RestrictTurn(op: RestrictOp, st: State, s: Name, isSet: bool, sv: Option<set<Value>>,
                                        m: Name, isMap: bool, mm: map<Value, Value>, target: Name, t: nat, elm: Name,
                                        x: Value, ord: Order, fuel: nat)
    requires RestrictState(st, s, sv, m, mm, target, t, elm) && x in mm
    ensures var st0 := st.Bind(elm, Val(x));
            var act := RestrictActs(op, sv, mm)[x];
            Exec([RestrictStmt(op, AsSet(s, isSet), AsMap(m, isMap), elm, target)], st0, ord, fuel)
            == match act
               case Fail => Abort
               case Skip => Done(st0)
               case Enter(v) => Done(st0.WithObj(t, MapObj(st.heap[t].m[x := v])))
  {
    var st0 := st.Bind(elm, Val(x));
    var stmt := RestrictStmt(op, AsSet(s, isSet), AsMap(m, isMap), elm, target);
    var put := stmt.thn[0];
    assert SetAt(st0, s) == sv;
    EvalCond(op, st0, s, isSet, m, isMap, elm, x, mm);
    StepPut(st0, target, t, st.heap[t].m, elm, x, Get(AsMap(m, isMap), Var(elm)), ord, fuel);
    hide Eval, EvalVal, EvalBool, AsSet, AsMap, RestrictCond;
    ExecOne(stmt, st0, ord, fuel);
    ExecOne(put, st0, ord, fuel);
    assert stmt.thn == [put];
    assert Exec([], st0, ord, fuel) == Done(st0);
    if sv.Some? {
      IfBranches(stmt, st0, Selected(op, sv.value, x, mm[x]), ord, fuel);
    }
  }

  /** The frame of the restricting loop: the operands and the private key set. */
  ghost function RestrictFrame(st: State, s: Name, m: Name, target: Name, t: nat, tmp: Name, h: nat): Frame
    requires s in st.store && m in st.store && st.IsMapAt(st.store[m])
  {
    var a := st.store[m].addr;
    var slots := map[s := st.store[s], m := st.store[m], target := Ref(t), tmp := Ref(h)];
    if st.store[s].Ref? && st.store[s].addr < |st.heap|
    then Frame(slots, map[a := st.heap[a], st.store[s].addr := st.heap[st.store[s].addr],
        h := SetObj(st.heap[a].m.Keys)])
    else Frame(slots, map[a := st.heap[a], h := SetObj(st.heap[a].m.Keys)])
  }

  ghost function RestrictLoop(op: RestrictOp, s: Name, isSet: bool, m: Name, isMap: bool, target: Name, elm: Name,
                              tmp: Name): Stmt
  {
    ForEach(Elements(Var(tmp)), BoolLit(true), elm, [RestrictStmt(op, AsSet(s, isSet), AsMap(m, isMap), elm, target)])
  }

  lemma {:induction false} RestrictBody(op: RestrictOp, st: State, s: Name, isSet: bool, m: Name, isMap: bool,
                                        target: Name, t: nat, elm: Name, tmp: Name, h: nat, ord: Order, fuel: nat)
    requires s in st.store && m in st.store && st.IsMapAt(st.store[m]) && NoDangling(st)
    requires elm !in {s, m, target, tmp} && target !in {s, m, tmp} && tmp !in {s, m}
    requires t != h && t >= |st.heap| && h >= |st.heap|
    ensures var f := RestrictFrame(st, s, m, target, t, tmp, h);
            var mm := st.heap[st.store[m].addr].m;
            var loop := RestrictLoop(op, s, isSet, m, isMap, target, elm, tmp);
            OverFramed(loop, mm.Keys, f) && BodyActs(loop, RestrictActs(op, SetAt(st, s), mm), t, f, {elm}, ord, fuel)
  {
    var f := RestrictFrame(st, s, m, target, t, tmp, h);
    var a, sv := st.store[m].addr, SetAt(st, s);
    var mm := st.heap[a].m;
    var loop := RestrictLoop(op, s, isSet, m, isMap, target, elm, tmp);
    var acts := RestrictActs(op, sv, mm);
    assert elm !in f.slots && t !in f.objs;
    assert OverFramed(loop, mm.Keys, f) by {
      assert h in f.objs && tmp in f.slots;
      OverPrivateSet(loop, f, tmp, h, mm.Keys);
    }
    hide Exec, Eval, EvalColl, EvalSet, RestrictActs, RestrictStmt, OverFramed, EntersOne, RestrictFrame, Framed;
    forall st1, x | x in mm && Framed(st1, f) && t < |st1.heap| && st1.heap[t].MapObj?
      ensures EntersOne(Exec(loop.body, st1.Bind(elm, Val(x)), ord, fuel), st1, x, acts[x], t, f, {elm})
    {
      FrameGives(st, s, m, target, t, tmp, h, st1);
      RestrictEnters(op, st1, s, isSet, sv, m, isMap, mm, target, t, elm, f, x, ord, fuel);
    }
  }

  lemma {:induction false} RestrictEnters(op: RestrictOp, st: State, s: Name, isSet: bool, sv: Option<set<Value>>,
                                          m: Name, isMap: bool, mm: map<Value, Value>, target: Name, t: nat,
                                          elm: Name, f: Frame, x: Value, ord: Order, fuel: nat)
    requires RestrictState(st, s, sv, m, mm, target, t, elm) && x in mm
    requires Framed(st, f) && elm !in f.slots && t !in f.objs
    ensures EntersOne(Exec([RestrictStmt(op, AsSet(s, isSet), AsMap(m, isMap), elm, target)], st.Bind(elm, Val(x)),
            ord, fuel),
                      st, x, RestrictActs(op, sv, mm)[x], t, f, {elm})
  {
    hide Exec, Eval, RestrictStmt, RestrictActs;
    RestrictTurn(op, st, s, isSet, sv, m, isMap, mm, target, t, elm, x, ord, fuel);
    FrameSurvives(st, f, elm, x, t);
  }

  lemma {:induction false} OverPrivateSet(loop: Stmt, f: Frame, tmp: Name, h: nat, all: set<Value>)
    requires loop.ForEach? && loop.cond == BoolLit(true) && loop.over == Elements(Var(tmp))
    requires tmp in f.slots && f.slots[tmp] == Ref(h) && h in f.objs && f.objs[h] == SetObj(all)
    ensures OverFramed(loop, all, f)
  {
    forall st | Framed(st, f) ensures EvalColl(loop.over, st) == Some(all) {
      assert Eval(Var(tmp), st) == Some(Ref(h));
      assert EvalSet(Var(tmp), st) == Some(all);
    }
  }

  lemma {:induction false} FrameGives(st: State, s: Name, m: Name, target: Name, t: nat, tmp: Name, h: nat, st1: State)
    requires s in st.store && m in st.store && st.IsMapAt(st.store[m]) && NoDangling(st)
    requires target !in {s, m, tmp} && tmp !in {s, m} && t >= |st.heap| && h >= |st.heap| && t != h
    requires Framed(st1, RestrictFrame(st, s, m, target, t, tmp, h))
    ensures s in st1.store && m in st1.store && SetAt(st1, s) == SetAt(st, s)
    ensures st1.IsMapAt(st1.store[m]) && st1.heap[st1.store[m].addr].m == st.heap[st.store[m].addr].m
    ensures target in st1.store && st1.store[target] == Ref(t)
  {
    var f := RestrictFrame(st, s, m, target, t, tmp, h);
    assert s in f.slots && m in f.slots && target in f.slots;
    assert st.store[m].addr in f.objs;
    assert st.store[s].Ref? ==> st.store[s].addr in f.objs;
  }

  lemma {:induction false} FrameSurvives(st1: State, f: Frame, elm: Name, x: Value, t: nat)
    requires Framed(st1, f) && elm !in f.slots && t !in f.objs && t < |st1.heap|
    ensures Framed(st1.Bind(elm, Val(x)), f)
    ensures forall o :: Framed(st1.Bind(elm, Val(x)).WithObj(t, o), f)
  {
  }

  lemma {:induction false} RestrictActsEnter(op: RestrictOp, sv: Option<set<Value>>, mm: map<Value, Value>)
    ensures sv.Some? ==> !SomeFail(RestrictActs(op, sv, mm), mm.Keys)
                         && Entered(map[], RestrictActs(op, sv, mm), mm.Keys) == Restricted(op, sv.value, mm)
    ensures sv.None? && mm != map[] ==> SomeFail(RestrictActs(op, sv, mm), mm.Keys)
    ensures mm == map[] ==> !SomeFail(RestrictActs(op, sv, mm), mm.Keys)
                            && Entered(map[], RestrictActs(op, sv, mm), mm.Keys) == map[]
  {
    if sv.None? && mm != map[] {
      var x :| x in mm;
      assert RestrictActs(op, sv, mm)[x].Fail?;
    }
  }

  /** The two allocations and the loop's private copy. */
  lemma {:induction false} RestrictHead(st: State, m: Name, isMap: bool, k: nat, loop: Stmt, last: Stmt, ord: Order,
                                        fuel: nat)
    requires m in st.store && Old(m, k) && NoDangling(st) && (isMap ==> st.IsMapAt(st.store[m]))
    ensures var ss := [Alloc(Fresh("tmpMap", k), New.EmptyMap),
            Alloc(Fresh("domM", k + 1), CopySet(KeySet(AsMap(m, isMap)))),
                       Alloc(Fresh("tmpSet", k + 4), CopySet(Elements(Var(Fresh("domM", k + 1))))), loop, last];
            Exec(ss, st, ord, fuel)
            == if st.IsMapAt(st.store[m]) then Exec([loop, last], RestrictReady(st, m, k), ord, fuel) else Abort
  {
    var tmpMap, domM, tmp, n := Fresh("tmpMap", k), Fresh("domM", k + 1), Fresh("tmpSet", k + 4), |st.heap|;
    var s0, s1, s2 := Alloc(tmpMap, New.EmptyMap), Alloc(domM, CopySet(KeySet(AsMap(m, isMap)))),
        Alloc(tmp, CopySet(Elements(Var(domM))));
    var ss := [s0, s1, s2, loop, last];
    var st1 := State(st.store[tmpMap := Ref(n)], st.heap + [MapObj(map[])], st.ticks);
    AllocEmpty(tmpMap, st, ord, fuel);
    EvalAsMap(st1, m, isMap);
    ExecStep(ss, st, ord, fuel);
    assert ss[1..] == [s1, s2, loop, last];
    ExecStep(ss[1..], st1, ord, fuel);
    assert st1.IsMapAt(st1.store[m]) == st.IsMapAt(st.store[m]);
    if st.IsMapAt(st.store[m]) {
      var ks := st.heap[st.store[m].addr].m.Keys;
      var st2 := State(st1.store[domM := Ref(n + 1)], st1.heap + [SetObj(ks)], st1.ticks);
      assert EvalColl(KeySet(AsMap(m, isMap)), st1) == Some(ks);
      assert Step(s1, st1, ord, fuel) == Done(st2);
      assert ss[1..][1..] == [s2, loop, last];
      assert Eval(Var(domM), st2) == Some(Ref(n + 1));
      assert EvalSet(Var(domM), st2) == Some(ks);
      assert EvalColl(Elements(Var(domM)), st2) == Some(ks);
      assert st2.heap + [SetObj(ks)] == st.heap + [MapObj(map[]), SetObj(ks), SetObj(ks)];
      assert Step(s2, st2, ord, fuel) == Done(RestrictReady(st, m, k));
      ExecStep([s2, loop, last], st2, ord, fuel);
      assert [s2, loop, last][1..] == [loop, last];
    }
  }

  ghost function RestrictReady(st: State, m: Name, k: nat): State
    requires m in st.store && st.IsMapAt(st.store[m])
  {
    var n, ks := |st.heap|, st.heap[st.store[m].addr].m.Keys;
    State(st.store[Fresh("tmpMap", k) := Ref(n)][Fresh("domM", k + 1) := Ref(n + 1)][Fresh("tmpSet", k + 4) :=
        Ref(n + 2)],
          st.heap + [MapObj(map[]), SetObj(ks), SetObj(ks)], st.ticks)
  }

  lemma {:induction false} ReadyIsFramed(st: State, s: Name, m: Name, k: nat)
    requires s in st.store && m in st.store && NoDangling(st) && Old(s, k) && Old(m, k) && st.IsMapAt(st.store[m])
    ensures Framed(RestrictReady(st, m, k),
            RestrictFrame(st, s, m, Fresh("tmpMap", k), |st.heap|, Fresh("tmpSet", k + 4), |st.heap| + 2))
    ensures Keeps(st, RestrictReady(st, m, k), k)
    ensures |RestrictReady(st, m, k).heap| == |st.heap| + 3 && RestrictReady(st, m, k).heap[|st.heap|] == MapObj(map[])
    ensures Fresh("tmpMap", k) in RestrictReady(st, m, k).store
            && RestrictReady(st, m, k).store[Fresh("tmpMap", k)] == Ref(|st.heap|)
  {
  }

  lemma {:induction false} RestrictRuns(op: RestrictOp, st: State, s: Name, isSet: bool, m: Name, isMap: bool,
                                        res: Name, k: nat, ord: Order, fuel: nat)
    requires AnyOrder(ord) && s in st.store && m in st.store && NoDangling(st)
    requires Old(s, k) && Old(m, k) && Old(res, k) && st.IsMapAt(st.store[m])
    ensures var mm := st.heap[st.store[m].addr].m;
            var acts := RestrictActs(op, SetAt(st, s), mm);
            var loop := RestrictLoop(op, s, isSet, m, isMap, Fresh("tmpMap", k), Fresh("elm", k + 2),
                Fresh("tmpSet", k + 4));
            var r := Exec([loop, Set(res, Var(Fresh("tmpMap", k)))], RestrictReady(st, m, k), ord, fuel);
            if SomeFail(acts, mm.Keys) then r == Abort else Returns(r, st, res, Entered(map[], acts, mm.Keys), k)
  {
    hide Exec, Step, Eval, AnyOrder, RestrictLoop, BodyActs, OverFramed, RestrictActs, RestrictReady, RestrictFrame,
        Entered, SomeFail, Framed;
    var target, elm, tmp, t := Fresh("tmpMap", k), Fresh("elm", k + 2), Fresh("tmpSet", k + 4), |st.heap|;
    var loop, last := RestrictLoop(op, s, isSet, m, isMap, target, elm, tmp), Set(res, Var(target));
    var mm, sv, st1 := st.heap[st.store[m].addr].m, SetAt(st, s), RestrictReady(st, m, k);
    var acts := RestrictActs(op, sv, mm);
    RestrictBody(op, st, s, isSet, m, isMap, target, t, elm, tmp, t + 2, ord, fuel);
    ReadyIsFramed(st, s, m, k);
    RestrictIsLoop(op, s, isSet, m, isMap, target, elm, tmp);
    ForEachEnters(loop, mm.Keys, st1, ord, fuel, acts, t, RestrictFrame(st, s, m, target, t, tmp, t + 2), {elm});
    ExecStep([loop, last], st1, ord, fuel);
    assert [loop, last][1..] == [last];
    if !SomeFail(acts, mm.Keys) {
      var st2 := Step(loop, st1, ord, fuel).st;
      KeepsThenLoop(st, st1, st2, t, {elm}, res, k);
      ReturnLast(st, st2, target, t, Entered(map[], acts, mm.Keys), res, k, ord, fuel);
    }
  }

  /** The code emitted for each restriction computes it for all sets and maps in any
      iteration order. A map operand that is no map aborts; a set operand that is no
      set aborts unless the map is empty, since only the loop looks at it. */
  lemma {:induction false} RestrictComputes(op: RestrictOp, st: State, s: Name, isSet: bool, m: Name, isMap: bool,
                                            res: Name, k: nat, ord: Order, fuel: nat)
    requires AnyOrder(ord) && s in st.store && m in st.store && NoDangling(st)
    requires Old(s, k) && Old(m, k) && Old(res, k) && (isMap ==> st.IsMapAt(st.store[m]))
    ensures RestrictSpec(Exec(RestrictCode(op, s, isSet, m, isMap, res, k), st, ord, fuel), op, st, s, m, res, k)
  {
    var target, elm, tmp := Fresh("tmpMap", k), Fresh("elm", k + 2), Fresh("tmpSet", k + 4);
    var loop, last := RestrictLoop(op, s, isSet, m, isMap, target, elm, tmp), Set(res, Var(target));
    assert RestrictCode(op, s, isSet, m, isMap, res, k)
        == [Alloc(target, New.EmptyMap), Alloc(Fresh("domM", k + 1), CopySet(KeySet(AsMap(m, isMap)))),
            Alloc(tmp, CopySet(Elements(Var(Fresh("domM", k + 1))))), loop, last];
    hide Exec, Step, RestrictLoop, RestrictCode, RestrictActs, Restricted, RestrictReady, Entered, SomeFail, Returns;
    RestrictHead(st, m, isMap, k, loop, last, ord, fuel);
    if st.IsMapAt(st.store[m]) {
      RestrictRuns(op, st, s, isSet, m, isMap, res, k, ord, fuel);
      RestrictActsEnter(op, SetAt(st, s), st.heap[st.store[m].addr].m);
    }
  }

  lemma {:induction false} RestrictIsLoop(op: RestrictOp, s: Name, isSet: bool, m: Name, isMap: bool, target: Name,
                                          elm: Name, tmp: Name)
    ensures RestrictLoop(op, s, isSet, m, isMap, target, elm, tmp).ForEach?
  {
  }
}
