/**
 The Java code emitted for VDM map iteration, composition, merge and restriction,
 and what it computes: for every map, every set, every initial state and every
 order in which the loops visit their collections.
 */
module MapLowering {
  import opened VdmValues
  import opened JavaStatements

  // ----- Fragments -----

  /** GenIterMap, Java branch: iterate over a private copy of m. Draws four names. */
  function IterMapCode(m: Name, key: Name, elem: Option<Name>, stmt: seq<Stmt>, k: nat): seq<Stmt> {
    [Alloc(Fresh("tmpMap", k + 1), CopyMap(Var(m))),
     IterMapLoop(key, elem, stmt, k)]
  }

  function IterMapLoop(key: Name, elem: Option<Name>, stmt: seq<Stmt>, k: nat): (s: Stmt)
    ensures s.ForEach?
  {
    var tmp, dom := Fresh("tmpMap", k + 1), Fresh("dom", k + 3);
    ForEach(KeySet(Var(tmp)), BoolLit(true), dom,
            [Set(key, Var(dom))]
            + (if elem.Some? then [Set(elem.value, Get(Var(tmp), Var(dom)))] else [])
            + stmt)
  }

  /** GenIterSet, Java branch: iterate over a private copy of s. Draws two names. */
  function IterSetCode(s: Coll, cond: Expr, e: Name, stmt: seq<Stmt>, k: nat): seq<Stmt> {
    [Alloc(Fresh("tmpSet", k + 1), CopySet(s)),
     ForEach(Elements(Var(Fresh("tmpSet", k + 1))), cond, e, stmt)]
  }

  // ----- Executing statement lists -----

  lemma {:induction false} ExecStep(ss: seq<Stmt>, st: State, ord: Order, fuel: nat)
    requires ss != []
    ensures Exec(ss, st, ord, fuel) ==
              var r := Step(ss[0], st, ord, fuel);
              if r.Done? then Exec(ss[1..], r.st, ord, fuel) else r
  {
  }

  lemma {:induction false} ExecOne(s: Stmt, st: State, ord: Order, fuel: nat)
    ensures Exec([s], st, ord, fuel) == Step(s, st, ord, fuel)
  {
    hide Step;
    ExecStep([s], st, ord, fuel);
  }

  lemma {:induction false} ExecAppend(a: seq<Stmt>, b: seq<Stmt>, st: State, ord: Order, fuel: nat)
    ensures Exec(a + b, st, ord, fuel) ==
              var r := Exec(a, st, ord, fuel);
              if r.Done? then Exec(b, r.st, ord, fuel) else r
  {
    hide Step;
    if a == [] {
      assert a + b == b;
    } else {
      ExecStep(a, st, ord, fuel);
      ExecStep(a + b, st, ord, fuel);
      assert (a + b)[1..] == a[1..] + b;
      var r := Step(a[0], st, ord, fuel);
      if r.Done? { ExecAppend(a[1..], b, r.st, ord, fuel); }
    }
  }

  /** st' keeps every object of st except t, and every variable not in vars. */
  ghost predicate Extends(st: State, st': State, t: nat, vars: set<Name>) {
    && |st.heap| <= |st'.heap|
    && (forall a :: 0 <= a < |st.heap| && a != t ==> st'.heap[a] == st.heap[a])
    && (forall n :: n in st.store && n !in vars ==> n in st'.store && st'.store[n] == st.store[n])
  }

  lemma {:induction false} ExtendsTransitive(a: State, b: State, c: State, t: nat, vars: set<Name>, more: set<Name>)
    requires Extends(a, b, t, vars) && Extends(b, c, t, vars) && vars <= more
    ensures Extends(a, c, t, more)
  {
  }

  /** The variable n holds the map m, as the object at address a. */
  ghost predicate Holds(st: State, n: Name, a: nat, m: map<Value, Value>) {
    n in st.store && st.store[n] == Ref(a) && a < |st.heap| && st.heap[a] == MapObj(m)
  }

  lemma {:induction false} EvalMapVar(st: State, n: Name, a: nat, m: map<Value, Value>)
    requires Holds(st, n, a, m)
    ensures Eval(Var(n), st) == Some(Ref(a)) && EvalMap(Var(n), st) == Some(m)
    ensures EvalColl(KeySet(Var(n)), st) == Some(m.Keys) && EvalColl(Values(Var(n)), st) == Some(m.Values)
  {
    assert Eval(Var(n), st) == Some(Ref(a));
    assert EvalMap(Var(n), st) == Some(m);
  }

  lemma {:induction false} EvalValVar(st: State, n: Name, v: Value)
    requires n in st.store && st.store[n] == Val(v)
    ensures EvalVal(Var(n), st) == Some(v)
  {
    assert Eval(Var(n), st) == Some(Val(v));
  }

  lemma {:induction false} EvalGet(st: State, n: Name, a: nat, m: map<Value, Value>, k: Name, v: Value)
    requires Holds(st, n, a, m) && k in st.store && st.store[k] == Val(v)
    ensures Eval(Get(Var(n), Var(k)), st) == Some(if v in m then Val(m[v]) else Null)
    ensures EvalVal(Get(Var(n), Var(k)), st) == if v in m then Some(m[v]) else None
    ensures Eval(ContainsKey(Var(n), Var(k)), st) == Some(Bool(v in m))
  {
    EvalMapVar(st, n, a, m);
    EvalValVar(st, k, v);
    assert Eval(Get(Var(n), Var(k)), st) == Some(if v in m then Val(m[v]) else Null);
  }

  lemma {:induction false} StepPut(st: State, target: Name, t: nat, cur: map<Value, Value>, key: Name, x: Value,
                                   ev: Expr, ord: Order, fuel: nat)
    requires Holds(st, target, t, cur) && key in st.store && st.store[key] == Val(x)
    ensures var v := EvalVal(ev, st);
            Step(Put(Var(target), Var(key), ev), st, ord, fuel)
            == if v.None? then Abort else Done(st.WithObj(t, MapObj(cur[x := v.value])))
  {
    hide EvalVal;
    EvalMapVar(st, target, t, cur);
    EvalValVar(st, key, x);
  }

  // ----- Bodies -----

  /** The loop variables are new to the frame, and the target is not framed. */
  ghost predicate LoopNames(f: Frame, target: Name, t: nat, vars: set<Name>) {
    && vars !! f.slots.Keys && t !in f.objs
    && target in f.slots && f.slots[target] == Ref(t)
  }

  ghost predicate FrameHolds(f: Frame, n: Name, a: nat, m: map<Value, Value>) {
    n in f.slots && f.slots[n] == Ref(a) && a in f.objs && f.objs[a] == MapObj(m)
  }

  function IdentityActs(m: map<Value, Value>): map<Value, Act> { map x | x in m :: Enter(x) }

  lemma {:induction false} OverCopy(f: Frame, key: Name, elem: Option<Name>, stmt: seq<Stmt>, k: nat,
                                    m: map<Value, Value>, h: nat)
    requires FrameHolds(f, Fresh("tmpMap", k + 1), h, m)
    ensures OverFramed(IterMapLoop(key, elem, stmt, k), m.Keys, f)
  {
    hide EvalColl;
    forall st | Framed(st, f) ensures EvalColl(KeySet(Var(Fresh("tmpMap", k + 1))), st) == Some(m.Keys) {
      EvalMapVar(st, Fresh("tmpMap", k + 1), h, m);
    }
  }

  lemma {:induction false} IdentityBody(target: Name, t: nat, key: Name, m: map<Value, Value>, h: nat, f: Frame,
                                        k: nat, ord: Order, fuel: nat)
    returns (s: Stmt)
    requires key != Fresh("dom", k + 3) && LoopNames(f, target, t, {key, Fresh("dom", k + 3)})
    requires FrameHolds(f, Fresh("tmpMap", k + 1), h, m)
    ensures s == IterMapLoop(key, None, [Put(Var(target), Var(key), Var(key))], k) && s.ForEach?
    ensures OverFramed(s, m.Keys, f)
    ensures BodyActs(s, IdentityActs(m), t, f, {key, Fresh("dom", k + 3)}, ord, fuel)
  {
    hide Exec, Step, Eval, EvalVal, EvalMap, EvalColl;
    var dom, vars := Fresh("dom", k + 3), {key, Fresh("dom", k + 3)};
    var put := Put(Var(target), Var(key), Var(key));
    s := IterMapLoop(key, None, [put], k);
    assert s.body == [Set(key, Var(dom)), put];
    OverCopy(f, key, None, [put], k, m, h);
    forall st, x | x in m && Framed(st, f) && t < |st.heap| && st.heap[t].MapObj?
      ensures EntersOne(Exec(s.body, st.Bind(dom, Val(x)), ord, fuel), st, x, Enter(x), t, f, vars)
    {
      IdentityTurn(st, target, t, key, dom, x, ord, fuel);
      var st' := st.Bind(dom, Val(x)).Bind(key, Val(x)).WithObj(t, MapObj(st.heap[t].m[x := x]));
      assert Framed(st', f);
    }
  }

  lemma {:induction false} IdentityTurn(st: State, target: Name, t: nat, key: Name, dom: Name, x: Value, ord: Order,
                                        fuel: nat)
    requires key != dom && target !in {key, dom} && t < |st.heap| && st.heap[t].MapObj?
    requires target in st.store && st.store[target] == Ref(t)
    ensures Exec([Set(key, Var(dom)), Put(Var(target), Var(key), Var(key))], st.Bind(dom, Val(x)), ord, fuel)
            == Done(st.Bind(dom, Val(x)).Bind(key, Val(x)).WithObj(t, MapObj(st.heap[t].m[x := x])))
  {
    var put := Put(Var(target), Var(key), Var(key));
    var st0 := st.Bind(dom, Val(x));
    var st1 := st0.Bind(key, Val(x));
    assert Step(Set(key, Var(dom)), st0, ord, fuel) == Done(st1);
    hide Step;
    StepPut(st1, target, t, st.heap[t].m, key, x, Var(key), ord, fuel);
    EvalValVar(st1, key, x);
    ExecStep([Set(key, Var(dom)), put], st0, ord, fuel);
    assert [Set(key, Var(dom)), put][1..] == [put];
    ExecOne(put, st1, ord, fuel);
  }

  function ThroughActs(m: map<Value, Value>, p: map<Value, Value>): (acts: map<Value, Act>)
    ensures acts.Keys == m.Keys
  {
    map x | x in m :: if m[x] in p then Enter(p[m[x]]) else Fail
  }

  /** What one turn does when key is to map to what the map in via has for elem. */
  ghost function ThroughState(st: State, t: nat, key: Name, elem: Name, dom: Name, x: Value, y: Value, v: Value): State
    requires t < |st.heap| && st.heap[t].MapObj?
  {
    st.Bind(dom, Val(x)).Bind(key, Val(x)).Bind(elem, Val(y)).WithObj(t, MapObj(st.heap[t].m[x := v]))
  }

  lemma {:induction false} ThroughTurn(st: State, target: Name, t: nat, key: Name, elem: Name, dom: Name, tmp: Name,
                                       h: nat, m: map<Value, Value>, via: Name, b: nat, p: map<Value, Value>,
                                       x: Value, ord: Order, fuel: nat)
    requires key != dom && key != elem && elem != dom && {key, elem, dom} !! {target, tmp, via}
    requires t < |st.heap| && st.heap[t].MapObj? && target in st.store && st.store[target] == Ref(t)
    requires Holds(st, tmp, h, m) && Holds(st, via, b, p) && x in m
    ensures Exec([Set(key, Var(dom)), Set(elem, Get(Var(tmp), Var(dom))),
            Put(Var(target), Var(key), Get(Var(via), Var(elem)))],
                 st.Bind(dom, Val(x)), ord, fuel)
            == if m[x] in p then Done(ThroughState(st, t, key, elem, dom, x, m[x], p[m[x]])) else Abort
  {
    var put := Put(Var(target), Var(key), Get(Var(via), Var(elem)));
    var get := Set(elem, Get(Var(tmp), Var(dom)));
    var st0 := st.Bind(dom, Val(x));
    var st1 := st0.Bind(key, Val(x));
    var st2 := st1.Bind(elem, Val(m[x]));
    assert Step(Set(key, Var(dom)), st0, ord, fuel) == Done(st1);
    EvalGet(st1, tmp, h, m, dom, x);
    assert Step(get, st1, ord, fuel) == Done(st2);
    hide Step;
    EvalGet(st2, via, b, p, elem, m[x]);
    StepPut(st2, target, t, st.heap[t].m, key, x, Get(Var(via), Var(elem)), ord, fuel);
    ExecStep([Set(key, Var(dom)), get, put], st0, ord, fuel);
    assert [Set(key, Var(dom)), get, put][1..] == [get, put];
    ExecStep([get, put], st1, ord, fuel);
    assert [get, put][1..] == [put];
    ExecOne(put, st2, ord, fuel);
  }

  /** key maps to what the map in via has for elem; where it has nothing the put fails. */
  lemma {:induction false} ThroughBody(target: Name, t: nat, key: Name, elem: Name, via: Name, p: map<Value, Value>,
                                       b: nat, m: map<Value, Value>, h: nat, f: Frame, k: nat, ord: Order, fuel: nat)
    returns (s: Stmt)
    requires key != Fresh("dom", k + 3) && key != elem && elem != Fresh("dom", k + 3)
    requires LoopNames(f, target, t, {key, elem, Fresh("dom", k + 3)})
    requires FrameHolds(f, Fresh("tmpMap", k + 1), h, m) && FrameHolds(f, via, b, p)
    ensures s == IterMapLoop(key, Some(elem), [Put(Var(target), Var(key), Get(Var(via), Var(elem)))], k) && s.ForEach?
    ensures OverFramed(s, m.Keys, f)
    ensures BodyActs(s, ThroughActs(m, p), t, f, {key, elem, Fresh("dom", k + 3)}, ord, fuel)
  {
    hide Exec, Step, Eval, EvalVal, EvalMap, EvalColl, OverFramed;
    var dom, vars := Fresh("dom", k + 3), {key, elem, Fresh("dom", k + 3)};
    var tmp := Fresh("tmpMap", k + 1);
    var put := Put(Var(target), Var(key), Get(Var(via), Var(elem)));
    s := IterMapLoop(key, Some(elem), [put], k);
    assert s.body == [Set(key, Var(dom)), Set(elem, Get(Var(tmp), Var(dom))), put];
    OverCopy(f, key, Some(elem), [put], k, m, h);
    forall st, x | x in m && Framed(st, f) && t < |st.heap| && st.heap[t].MapObj?
      ensures EntersOne(Exec(s.body, st.Bind(dom, Val(x)), ord, fuel), st, x, ThroughActs(m, p)[x], t, f, vars)
    {
      ThroughTurn(st, target, t, key, elem, dom, tmp, h, m, via, b, p, x, ord, fuel);
      if m[x] in p {
        assert Framed(ThroughState(st, t, key, elem, dom, x, m[x], p[m[x]]), f);
      }
    }
  }

  // ----- Whole loops -----

  function IdentityMap(ks: set<Value>): map<Value, Value> { map x | x in ks :: x }

  /** m followed by p. */
  function Through(m: map<Value, Value>, p: map<Value, Value>): map<Value, Value>
    requires m.Values <= p.Keys
  {
    map x | x in m :: assert m[x] in m.Values; p[m[x]]
  }

  ghost predicate LoopDone(r: Outcome, st: State, t: nat, m: map<Value, Value>, vars: set<Name>) {
    r.Done? && Extends(st, r.st, t, vars) && t < |r.st.heap| && r.st.heap[t] == MapObj(m)
  }

  /** Where the private copy goes. */
  ghost function Copied(st: State, k: nat, m: map<Value, Value>): State {
    State(st.store[Fresh("tmpMap", k + 1) := Ref(|st.heap|)], st.heap + [MapObj(m)], st.ticks)
  }

  lemma {:induction false} CopyFirst(st: State, over: Name, a: nat, m: map<Value, Value>, key: Name,
                                     elem: Option<Name>, stmt: seq<Stmt>, k: nat, ord: Order, fuel: nat)
    requires Holds(st, over, a, m)
    ensures Exec(IterMapCode(over, key, elem, stmt, k), st, ord, fuel)
            == Step(IterMapLoop(key, elem, stmt, k), Copied(st, k, m), ord, fuel)
  {
    var ss := IterMapCode(over, key, elem, stmt, k);
    EvalMapVar(st, over, a, m);
    assert Step(ss[0], st, ord, fuel) == Done(Copied(st, k, m));
    hide Step, IterMapLoop;
    ExecStep(ss, st, ord, fuel);
    assert ss[1..] == [IterMapLoop(key, elem, stmt, k)];
    ExecOne(IterMapLoop(key, elem, stmt, k), Copied(st, k, m), ord, fuel);
  }

  lemma {:induction false} ThroughActsEnter(m: map<Value, Value>, p: map<Value, Value>, cur: map<Value, Value>)
    requires m.Values <= p.Keys
    ensures !SomeFail(ThroughActs(m, p), m.Keys)
    ensures Entered(cur, ThroughActs(m, p), m.Keys) == cur + Through(m, p)
  {
    var acts := ThroughActs(m, p);
    forall x | x in m ensures acts[x] == Enter(p[m[x]]) { assert m[x] in m.Values; }
  }

  /** From the state after the copy back to the state before it. */
  lemma {:induction false} LoopToDone(r: Outcome, st: State, acts: map<Value, Act>, m: map<Value, Value>, t: nat,
                                      f: Frame, vars: set<Name>, k: nat)
    requires acts.Keys == m.Keys && t < |st.heap| && st.heap[t].MapObj?
    requires LoopResult(r, Copied(st, k, m), acts, m.Keys, t, f, vars) && !SomeFail(acts, m.Keys)
    ensures LoopDone(r, st, t, Entered(st.heap[t].m, acts, m.Keys), vars + {Fresh("tmpMap", k + 1)})
  {
  }

  /** Iterating over a private copy of m with a body that acts as acts says. */
  lemma {:induction false} CopiedLoop(st: State, over: Name, a: nat, m: map<Value, Value>, t: nat,
                                      cur: map<Value, Value>, key: Name, elem: Option<Name>, stmt: seq<Stmt>,
                                      acts: map<Value, Act>, f: Frame, vars: set<Name>, k: nat, ord: Order, fuel: nat)
    requires AnyOrder(ord) && Holds(st, over, a, m) && t < |st.heap| && st.heap[t] == MapObj(cur)
    requires OverFramed(IterMapLoop(key, elem, stmt, k), m.Keys, f) && Framed(Copied(st, k, m), f)
            && acts.Keys == m.Keys
    requires BodyActs(IterMapLoop(key, elem, stmt, k), acts, t, f, vars, ord, fuel)
    ensures var r := Exec(IterMapCode(over, key, elem, stmt, k), st, ord, fuel);
            if SomeFail(acts, m.Keys) then r == Abort
            else LoopDone(r, st, t, Entered(cur, acts, m.Keys), vars + {Fresh("tmpMap", k + 1)})
  {
    hide Exec, Step, Eval, AnyOrder, BodyActs, OverFramed, IterMapCode, SomeFail, Entered, Framed;
    CopyFirst(st, over, a, m, key, elem, stmt, k, ord, fuel);
    ForEachEnters(IterMapLoop(key, elem, stmt, k), m.Keys, Copied(st, k, m), ord, fuel, acts, t, f, vars);
    if !SomeFail(acts, m.Keys) {
      LoopToDone(Step(IterMapLoop(key, elem, stmt, k), Copied(st, k, m), ord, fuel), st, acts, m, t, f, vars, k);
    }
  }

  lemma {:induction false} IdentityLoop(st: State, over: Name, a: nat, m: map<Value, Value>, target: Name, t: nat,
                                        cur: map<Value, Value>, key: Name, k: nat, ord: Order, fuel: nat)
    requires AnyOrder(ord) && Holds(st, over, a, m) && Holds(st, target, t, cur)
    requires key != Fresh("dom", k + 3) && target !in {key, Fresh("dom", k + 3), Fresh("tmpMap", k + 1)}
    requires key != Fresh("tmpMap", k + 1)
    ensures LoopDone(Exec(IterMapCode(over, key, None, [Put(Var(target), Var(key), Var(key))], k), st, ord, fuel),
                     st, t, cur + IdentityMap(m.Keys), {key, Fresh("dom", k + 3), Fresh("tmpMap", k + 1)})
  {
    hide Exec, Step, Eval, AnyOrder, BodyActs, OverFramed, IterMapCode, IterMapLoop;
    var tmp, h := Fresh("tmpMap", k + 1), |st.heap|;
    var f := Frame(map[target := Ref(t), tmp := Ref(h)], map[h := MapObj(m)]);
    var put := Put(Var(target), Var(key), Var(key));
    var s := IdentityBody(target, t, key, m, h, f, k, ord, fuel);
    assert !SomeFail(IdentityActs(m), m.Keys);
    assert Entered(cur, IdentityActs(m), m.Keys) == cur + IdentityMap(m.Keys);
    hide SomeFail, Entered, IdentityMap, IdentityActs;
    CopiedLoop(st, over, a, m, t, cur, key, None, [put], IdentityActs(m), f, {key, Fresh("dom", k + 3)}, k, ord, fuel);
    assert {key, Fresh("dom", k + 3)} + {tmp} == {key, Fresh("dom", k + 3), tmp};
  }

  /** The frame of a loop that reads a second map. */
  ghost function ViaFrame(target: Name, t: nat, via: Name, b: nat, p: map<Value, Value>, m: map<Value, Value>, h: nat,
                          k: nat): Frame
  {
    Frame(map[target := Ref(t), Fresh("tmpMap", k + 1) := Ref(h), via := Ref(b)], map[h := MapObj(m), b := MapObj(p)])
  }

  lemma {:induction false} ViaFrameFits(st: State, m: map<Value, Value>, target: Name, t: nat, cur: map<Value, Value>,
                                        via: Name, b: nat, p: map<Value, Value>, vars: set<Name>, k: nat)
    requires Holds(st, target, t, cur) && Holds(st, via, b, p) && b != t
    requires Fresh("tmpMap", k + 1) !in {target, via}
    requires vars !! {target, via, Fresh("tmpMap", k + 1)}
    ensures var f := ViaFrame(target, t, via, b, p, m, |st.heap|, k);
            && Framed(Copied(st, k, m), f) && LoopNames(f, target, t, vars)
            && FrameHolds(f, Fresh("tmpMap", k + 1), |st.heap|, m) && FrameHolds(f, via, b, p)
  {
  }

  lemma {:induction false} ThroughLoop(st: State, over: Name, a: nat, m: map<Value, Value>, target: Name, t: nat,
                                       cur: map<Value, Value>, via: Name, b: nat, p: map<Value, Value>, key: Name,
                                       elem: Name, k: nat, ord: Order, fuel: nat)
    requires AnyOrder(ord) && Holds(st, over, a, m) && Holds(st, target, t, cur) && Holds(st, via, b, p) && b != t
    requires key != elem && {key, elem} !! {Fresh("dom", k + 3), Fresh("tmpMap", k + 1)}
    requires {target, via} !! {key, elem, Fresh("dom", k + 3), Fresh("tmpMap", k + 1)}
    requires m.Values <= p.Keys
    ensures LoopDone(Exec(IterMapCode(over, key, Some(elem), [Put(Var(target), Var(key), Get(Var(via), Var(elem)))],
            k), st, ord, fuel),
                     st, t, cur + Through(m, p), {key, elem, Fresh("dom", k + 3), Fresh("tmpMap", k + 1)})
  {
    var h, vars := |st.heap|, {key, elem, Fresh("dom", k + 3)};
    assert key != Fresh("dom", k + 3) && elem != Fresh("dom", k + 3);
    assert vars !! {target, via, Fresh("tmpMap", k + 1)} && Fresh("tmpMap", k + 1) !in {target, via};
    assert vars + {Fresh("tmpMap", k + 1)} == {key, elem, Fresh("dom", k + 3), Fresh("tmpMap", k + 1)};
    hide Exec, Step, Eval, AnyOrder, BodyActs, OverFramed, IterMapCode, IterMapLoop, ViaFrame, LoopNames, FrameHolds,
        Framed;
    hide SomeFail, Entered, Through, ThroughActs;
    var f := ViaFrame(target, t, via, b, p, m, h, k);
    var put := Put(Var(target), Var(key), Get(Var(via), Var(elem)));
    ViaFrameFits(st, m, target, t, cur, via, b, p, vars, k);
    var s := ThroughBody(target, t, key, elem, via, p, b, m, h, f, k, ord, fuel);
    CopiedLoop(st, over, a, m, t, cur, key, Some(elem), [put], ThroughActs(m, p), f, vars, k, ord, fuel);
    ThroughActsEnter(m, p, cur);
  }

  // ----- Iteration: m ** n -----

  /** VDM's m ** n: the identity on dom m, m itself, or m after m ** (n-1). */
  function Power(m: map<Value, Value>, n: nat): (p: map<Value, Value>)
    requires n >= 2 ==> m.Values <= m.Keys
    ensures p.Keys == m.Keys
  {
    if n == 0 then IdentityMap(m.Keys) else if n == 1 then m else Through(m, Power(m, n - 1))
  }

  lemma {:induction false} ThroughAssociates(m: map<Value, Value>, p: map<Value, Value>, q: map<Value, Value>)
    requires m.Values <= p.Keys && p.Values <= q.Keys
    ensures Through(m, p).Values <= q.Keys
    ensures Through(Through(m, p), q) == Through(m, Through(p, q))
  {
    forall v | v in Through(m, p).Values ensures v in q.Keys {
      var x :| x in m && Through(m, p)[x] == v;
      assert m[x] in m.Values && v == p[m[x]];
      assert v in p.Values;
    }
  }

  lemma {:induction false} IdentityThrough(ks: set<Value>, p: map<Value, Value>)
    requires p.Keys == ks
    ensures IdentityMap(ks).Values <= ks && Through(IdentityMap(ks), p) == p
  {
  }

  /** Iterating i + j times is iterating i times and then j times. */
  lemma {:induction false} PowerAdds(m: map<Value, Value>, i: nat, j: nat)
    requires m.Values <= m.Keys
    ensures Power(m, i).Values <= m.Keys && Power(m, i + j) == Through(Power(m, i), Power(m, j))
  {
    hide Through, IdentityMap;
    PowerInDomain(m, i);
    if i == 0 {
      IdentityThrough(m.Keys, Power(m, j));
    } else {
      PowerAdds(m, i - 1, j);
      PowerStep(m, i);
      PowerStep(m, i + j);
      hide Power;
      ThroughAssociates(m, Power(m, i - 1), Power(m, j));
    }
  }

  /** The clause for n == 1 is an instance of the general one. */
  lemma {:induction false} PowerStep(m: map<Value, Value>, n: nat)
    requires m.Values <= m.Keys && n > 0
    ensures Power(m, n) == Through(m, Power(m, n - 1))
  {
    if n == 1 { assert Through(m, Power(m, 0)) == m; }
  }

  lemma {:induction false} PowerInDomain(m: map<Value, Value>, n: nat)
    requires m.Values <= m.Keys
    ensures Power(m, n).Values <= m.Keys
  {
    if n > 0 {
      PowerInDomain(m, n - 1);
      PowerStep(m, n);
      forall v | v in Power(m, n).Values ensures v in m.Keys {
        var x :| x in m && Power(m, n)[x] == v;
        assert m[x] in m.Values;
        assert v == Power(m, n - 1)[m[x]] && v in Power(m, n - 1).Values;
      }
    }
  }

  /** GenMapIterIfPart; draws thirteen names from k on in the source's order. */
  function IterIfPart(n: Name, tmpMap: Name, k: nat): seq<Stmt> {
    var mm, key, mm2, elem := Fresh("mm", k), Fresh("key", k + 1), Fresh("mm", k + 6), Fresh("elem", k + 7);
    [If(Neq(Var(n), IntLit(1)),
        [Alloc(mm, CopyMap(Var(tmpMap))),
         If(Eq(Var(n), IntLit(0)),
            IterMapCode(mm, key, None, [Put(Var(tmpMap), Var(key), Var(key))], k + 2),
            [If(Not(ContainsAll(KeySet(Var(tmpMap)), Values(Var(tmpMap)))), [RunTime], []),
             ForCount(Fresh("count", k + 12), Var(n), Round(tmpMap, k))])],
        [])]
  }

  function Round(tmpMap: Name, k: nat): seq<Stmt> {
    var mm, key, mm2, elem := Fresh("mm", k), Fresh("key", k + 1), Fresh("mm", k + 6), Fresh("elem", k + 7);
    [Alloc(mm2, CopyMap(Var(tmpMap)))]
    + IterMapCode(mm, key, Some(elem), [Put(Var(tmpMap), Var(key), Get(Var(mm2), Var(elem)))], k + 8)
  }

  /** An operand whose static type is not a map type is cast first. */
  function AsMap(v: Name, isMapType: bool): Expr { if isMapType then Var(v) else Cast(Var(v)) }

  /** GenMapIteration, Java branch; v1 and v2 are the operands' variables. */
  function IterationCode(v1: Name, isMapType: bool, v2: Name, res: Name, k: nat): seq<Stmt> {
    var tmpMap, n := Fresh("tmpMap", k), Fresh("n", k + 1);
    [Alloc(tmpMap, CopyMap(AsMap(v1, isMapType))),
     If(Not(IsNat(Var(v2))), [RunTime], []),
     Set(n, IntValue(Var(v2)))]
    + IterIfPart(n, tmpMap, k + 2)
    + [Set(res, Var(tmpMap))]
  }

  ghost function RoundNames(k: nat): set<Name> {
    {Fresh("key", k + 1), Fresh("mm", k + 6), Fresh("elem", k + 7), Fresh("tmpMap", k + 9), Fresh("dom", k + 11),
        Fresh("count", k + 12)}
  }

  /** Before the round that computes m ** (c+1): tmpMap holds m ** c, mm holds m. */
  ghost predicate RoundState(st: State, c: nat, m: map<Value, Value>, nn: nat, n: Name, tmpMap: Name, t: nat, a: nat,
                             k: nat)
  {
    && 1 <= c && m.Values <= m.Keys && a != t
    && Holds(st, tmpMap, t, Power(m, c)) && Holds(st, Fresh("mm", k), a, m)
    && n in st.store && st.store[n] == Int(nn)
    && {n, tmpMap, Fresh("mm", k)} !! RoundNames(k)
  }

  lemma {:induction false} OneRound(st: State, c: nat, m: map<Value, Value>, nn: nat, n: Name, tmpMap: Name, t: nat,
                                    a: nat, k: nat, ord: Order, fuel: nat)
    requires AnyOrder(ord) && RoundState(st, c, m, nn, n, tmpMap, t, a, k)
    ensures LoopDone(Exec(Round(tmpMap, k), st, ord, fuel), st, t, Power(m, c + 1),
            RoundNames(k) - {Fresh("count", k + 12)})
  {
    var mm, key, mm2, elem := Fresh("mm", k), Fresh("key", k + 1), Fresh("mm", k + 6), Fresh("elem", k + 7);
    var p, b := Power(m, c), |st.heap|;
    var st1 := State(st.store[mm2 := Ref(b)], st.heap + [MapObj(p)], st.ticks);
    EvalMapVar(st, tmpMap, t, p);
    assert Step(Alloc(mm2, CopyMap(Var(tmpMap))), st, ord, fuel) == Done(st1);
    hide Exec, Step, Eval, AnyOrder, IterMapCode;
    ThroughLoop(st1, mm, a, m, tmpMap, t, p, mm2, b, p, key, elem, k + 8, ord, fuel);
    assert p + Through(m, p) == Power(m, c + 1);
    ExecStep(Round(tmpMap, k), st, ord, fuel);
    var iter := IterMapCode(mm, key, Some(elem), [Put(Var(tmpMap), Var(key), Get(Var(mm2), Var(elem)))], k + 8);
    assert Round(tmpMap, k)[1..] == iter;
  }

  function RoundsLoop(n: Name, tmpMap: Name, k: nat): Stmt {
    ForCount(Fresh("count", k + 12), Var(n), Round(tmpMap, k))
  }

  lemma {:induction false} CountTurn(st: State, s: Stmt, c: int, nn: int, n: Name, ord: Order, fuel: nat)
    requires s.ForCount? && s.bound == Var(n)
    requires n in st.store && st.store[n] == Int(nn) && s.count in st.store && st.store[s.count] == Int(c)
    requires fuel > 0
    ensures c >= nn ==> Count(s, st, ord, fuel) == Done(st)
    ensures c < nn ==>
              var r := Exec(s.body, st, ord, fuel - 1);
              r.Done? && s.count in r.st.store && r.st.store[s.count] == Int(c) ==>
              Count(s, st, ord, fuel) == Count(s, r.st.Bind(s.count, Int(c + 1)), ord, fuel - 1)
  {
    hide Exec;
    assert Eval(Var(s.count), st) == Some(Int(c));
    assert Eval(Var(n), st) == Some(Int(nn));
    assert EvalInt(Var(s.count), st) == Some(c);
    assert EvalInt(Var(n), st) == Some(nn);
    if c < nn {
      var r := Exec(s.body, st, ord, fuel - 1);
      if r.Done? && s.count in r.st.store && r.st.store[s.count] == Int(c) {
        assert Eval(Var(s.count), r.st) == Some(Int(c));
      }
    }
  }

  lemma {:induction false} CountRounds(st: State, c: nat, m: map<Value, Value>, nn: nat, n: Name, tmpMap: Name,
                                       t: nat, a: nat, k: nat, ord: Order, fuel: nat)
    requires AnyOrder(ord) && RoundState(st, c, m, nn, n, tmpMap, t, a, k) && c <= nn && fuel > nn - c
    requires Fresh("count", k + 12) in st.store && st.store[Fresh("count", k + 12)] == Int(c)
    ensures LoopDone(Count(RoundsLoop(n, tmpMap, k), st, ord, fuel), st, t, Power(m, nn), RoundNames(k))
    decreases nn - c
  {
    hide Exec, Count, AnyOrder, Round, Power;
    var s, count := RoundsLoop(n, tmpMap, k), Fresh("count", k + 12);
    CountTurn(st, s, c, nn, n, ord, fuel);
    if c < nn {
      OneRound(st, c, m, nn, n, tmpMap, t, a, k, ord, fuel - 1);
      var r := Exec(Round(tmpMap, k), st, ord, fuel - 1);
      var st' := r.st.Bind(count, Int(c + 1));
      CountRounds(st', c + 1, m, nn, n, tmpMap, t, a, k, ord, fuel - 1);
      ExtendsTransitive(st, st', Count(s, st', ord, fuel - 1).st, t, RoundNames(k), RoundNames(k));
    }
  }

  predicate Old(n: Name, k: nat) { n.Source? || n.no < k }

  /** Nothing that existed before is touched, apart from the result variable. */
  ghost predicate Preserves(st: State, st': State, res: Name, k: nat) {
    && |st.heap| <= |st'.heap|
    && (forall a :: 0 <= a < |st.heap| ==> st'.heap[a] == st.heap[a])
    && (forall n :: n in st.store && Old(n, k) && n != res ==> n in st'.store && st'.store[n] == st.store[n])
  }

  /** The result variable ends up referring to an object holding the map m. */
  ghost predicate Returns(r: Outcome, st: State, res: Name, m: map<Value, Value>, k: nat) {
    && r.Done? && Preserves(st, r.st, res, k)
    && res in r.st.store && r.st.IsMapAt(r.st.store[res]) && r.st.heap[r.st.store[res].addr].m == m
  }

  /** The else branch of the emitted if: guard, then the counting loop. */
  lemma {:induction false} ManyRounds(st: State, m: map<Value, Value>, nn: nat, n: Name, tmpMap: Name, t: nat, a: nat,
                                      k: nat, ord: Order, fuel: nat)
    requires AnyOrder(ord) && nn >= 2 && fuel > nn && a != t
    requires Holds(st, tmpMap, t, m) && Holds(st, Fresh("mm", k), a, m) && n in st.store && st.store[n] == Int(nn)
    requires {n, tmpMap, Fresh("mm", k)} !! RoundNames(k)
    ensures var r := Exec([If(Not(ContainsAll(KeySet(Var(tmpMap)), Values(Var(tmpMap)))), [RunTime], []),
            RoundsLoop(n, tmpMap, k)],
                          st, ord, fuel);
            if m.Values <= m.Keys then LoopDone(r, st, t, Power(m, nn), RoundNames(k)) else r == Abort
  {
    var guard := If(Not(ContainsAll(KeySet(Var(tmpMap)), Values(Var(tmpMap)))), [RunTime], []);
    var ss := [guard, RoundsLoop(n, tmpMap, k)];
    EvalMapVar(st, tmpMap, t, m);
    assert EvalBool(ContainsAll(KeySet(Var(tmpMap)), Values(Var(tmpMap))), st) == Some(m.Values <= m.Keys);
    assert EvalBool(guard.cond, st) == Some(!(m.Values <= m.Keys));
    assert Exec([RunTime], st, ord, fuel) == Abort;
    assert Step(guard, st, ord, fuel) == if m.Values <= m.Keys then Done(st) else Abort;
    hide Eval, EvalBool, EvalColl, EvalMap, Round;
    ExecStep(ss, st, ord, fuel);
    assert ss[1..] == [RoundsLoop(n, tmpMap, k)];
    ExecOne(RoundsLoop(n, tmpMap, k), st, ord, fuel);
    if m.Values <= m.Keys {
      var st1 := st.Bind(Fresh("count", k + 12), Int(1));
      assert Step(RoundsLoop(n, tmpMap, k), st, ord, fuel) == Count(RoundsLoop(n, tmpMap, k), st1, ord, fuel);
      CountRounds(st1, 1, m, nn, n, tmpMap, t, a, k, ord, fuel);
    }
  }

  ghost function IfPartNames(k: nat): set<Name> {
    RoundNames(k) + {Fresh("mm", k), Fresh("tmpMap", k + 3), Fresh("dom", k + 5)}
  }

  /** The guarded part, entered when n is not 1: a copy of the map, then one of two branches. */
  function NotOnce(n: Name, tmpMap: Name, k: nat): Stmt {
    If(Eq(Var(n), IntLit(0)),
       IterMapCode(Fresh("mm", k), Fresh("key", k + 1), None,
           [Put(Var(tmpMap), Var(Fresh("key", k + 1)), Var(Fresh("key", k + 1)))], k + 2),
       [If(Not(ContainsAll(KeySet(Var(tmpMap)), Values(Var(tmpMap)))), [RunTime], []), RoundsLoop(n, tmpMap, k)])
  }

  lemma {:induction false} NotOnceRuns(st: State, m: map<Value, Value>, nn: nat, n: Name, tmpMap: Name, t: nat,
                                       a: nat, k: nat, ord: Order, fuel: nat)
    requires AnyOrder(ord) && fuel > nn && nn != 1 && a != t
    requires Holds(st, tmpMap, t, m) && Holds(st, Fresh("mm", k), a, m) && n in st.store && st.store[n] == Int(nn)
    requires {n, tmpMap} !! IfPartNames(k)
    ensures var r := Step(NotOnce(n, tmpMap, k), st, ord, fuel);
            if nn >= 2 && !(m.Values <= m.Keys) then r == Abort
            else LoopDone(r, st, t, Power(m, nn), IfPartNames(k))
  {
    var s, key := NotOnce(n, tmpMap, k), Fresh("key", k + 1);
    assert Eval(Var(n), st) == Some(Int(nn));
    assert EvalInt(Var(n), st) == Some(nn);
    assert EvalInt(IntLit(0), st) == Some(0);
    assert EvalBool(s.cond, st) == Some(nn == 0);
    IfBranches(s, st, nn == 0, ord, fuel);
    hide Exec, Step, Eval, EvalInt, EvalBool, IterMapCode, Round;
    if nn == 0 {
      IdentityLoop(st, Fresh("mm", k), a, m, tmpMap, t, m, key, k + 2, ord, fuel);
      assert m + IdentityMap(m.Keys) == Power(m, 0);
    } else {
      ManyRounds(st, m, nn, n, tmpMap, t, a, k, ord, fuel);
    }
  }

  lemma {:induction false} IfPartRuns(st: State, m: map<Value, Value>, nn: nat, n: Name, tmpMap: Name, t: nat, k: nat,
                                      ord: Order, fuel: nat)
    requires AnyOrder(ord) && fuel > nn
    requires Holds(st, tmpMap, t, m) && n in st.store && st.store[n] == Int(nn)
    requires {n, tmpMap} !! IfPartNames(k)
    ensures var r := Exec(IterIfPart(n, tmpMap, k), st, ord, fuel);
            if nn >= 2 && !(m.Values <= m.Keys) then r == Abort
            else LoopDone(r, st, t, Power(m, nn), IfPartNames(k))
  {
    var mm, inner := Fresh("mm", k), NotOnce(n, tmpMap, k);
    var outer := If(Neq(Var(n), IntLit(1)), [Alloc(mm, CopyMap(Var(tmpMap))), inner], []);
    assert IterIfPart(n, tmpMap, k) == [outer];
    assert Eval(Var(n), st) == Some(Int(nn));
    assert EvalInt(Var(n), st) == Some(nn);
    assert EvalInt(IntLit(1), st) == Some(1);
    assert EvalBool(outer.cond, st) == Some(nn != 1);
    IfBranches(outer, st, nn != 1, ord, fuel);
    assert Exec([], st, ord, fuel) == Done(st);
    var st1 := State(st.store[mm := Ref(|st.heap|)], st.heap + [MapObj(m)], st.ticks);
    EvalMapVar(st, tmpMap, t, m);
    assert Step(outer.thn[0], st, ord, fuel) == Done(st1);
    hide Exec, Step, Eval, EvalMap, EvalInt, EvalBool, IterIfPart, NotOnce;
    ExecOne(outer, st, ord, fuel);
    if nn != 1 {
      ExecStep(outer.thn, st, ord, fuel);
      assert outer.thn[1..] == [inner];
      ExecOne(inner, st1, ord, fuel);
      NotOnceRuns(st1, m, nn, n, tmpMap, t, |st.heap|, k, ord, fuel);
    }
  }

  lemma {:induction false} IfBranches(s: Stmt, st: State, b: bool, ord: Order, fuel: nat)
    requires s.If? && EvalBool(s.cond, st) == Some(b)
    ensures Step(s, st, ord, fuel) == Exec(if b then s.thn else s.els, st, ord, fuel)
  {
    hide Eval, EvalBool, Exec;
  }

  predicate IsNatSlot(s: Slot) { s.Val? && s.v.Num? && s.v.n >= 0 }

  ghost predicate IterationSpec(r: Outcome, st: State, v1: Name, v2: Name, res: Name, k: nat)
    requires v1 in st.store && v2 in st.store
  {
    if !st.IsMapAt(st.store[v1]) || !IsNatSlot(st.store[v2]) then r == Abort
    else
      var m, n := st.heap[st.store[v1].addr].m, st.store[v2].v.n;
      if n >= 2 && !(m.Values <= m.Keys) then r == Abort
      else Returns(r, st, res, Power(m, n), k)
  }

  lemma {:induction false} IterationHead(st: State, v1: Name, isMapType: bool, v2: Name, k: nat, ord: Order, fuel: nat)
    requires v1 in st.store && v2 in st.store && Old(v1, k) && Old(v2, k)
    ensures var head := [Alloc(Fresh("tmpMap", k), CopyMap(AsMap(v1, isMapType))),
                         If(Not(IsNat(Var(v2))), [RunTime], []),
                         Set(Fresh("n", k + 1), IntValue(Var(v2)))];
            var r := Exec(head, st, ord, fuel);
            if !st.IsMapAt(st.store[v1]) || !IsNatSlot(st.store[v2]) then r == Abort
            else r == Done(State(st.store[Fresh("tmpMap", k) := Ref(|st.heap|)][Fresh("n", k + 1) :=
                Int(st.store[v2].v.n)],
                                 st.heap + [MapObj(st.heap[st.store[v1].addr].m)], st.ticks))
  {
    var e := AsMap(v1, isMapType);
    var s0 := Alloc(Fresh("tmpMap", k), CopyMap(e));
    var s1 := If(Not(IsNat(Var(v2))), [RunTime], []);
    var s2 := Set(Fresh("n", k + 1), IntValue(Var(v2)));
    assert Eval(Var(v1), st) == Some(st.store[v1]);
    ExecStep([s0, s1, s2], st, ord, fuel);
    assert [s0, s1, s2][1..] == [s1, s2];
    if st.IsMapAt(st.store[v1]) {
      assert EvalMap(e, st) == Some(st.heap[st.store[v1].addr].m);
      var st1 := State(st.store[Fresh("tmpMap", k) := Ref(|st.heap|)],
          st.heap + [MapObj(st.heap[st.store[v1].addr].m)], st.ticks);
      assert Step(s0, st, ord, fuel) == Done(st1);
      assert Eval(Var(v2), st1) == Some(st.store[v2]);
      assert EvalBool(IsNat(Var(v2)), st1) == Some(IsNatSlot(st.store[v2]));
      assert EvalBool(s1.cond, st1) == Some(!IsNatSlot(st.store[v2]));
      IfBranches(s1, st1, !IsNatSlot(st.store[v2]), ord, fuel);
      ExecStep([s1, s2], st1, ord, fuel);
      assert [s1, s2][1..] == [s2];
      if IsNatSlot(st.store[v2]) {
        assert EvalVal(Var(v2), st1) == Some(st.store[v2].v);
        ExecOne(s2, st1, ord, fuel);
      } else {
        assert Exec([RunTime], st1, ord, fuel) == Abort;
      }
    } else {
      assert EvalMap(e, st).None?;
    }
  }

  /** The code emitted for m ** n computes it for every map, every number and every
      iteration order, and aborts exactly on a non-map, a non-nat, or n >= 2 with
      rng m not within dom m. Nothing that existed before is modified. */
  lemma {:induction false} IterationComputes(st: State, v1: Name, isMapType: bool, v2: Name, res: Name, k: nat,
                                             ord: Order, fuel: nat)
    requires AnyOrder(ord) && v1 in st.store && v2 in st.store
    requires Old(v1, k) && Old(v2, k) && Old(res, k)
    requires IsNatSlot(st.store[v2]) ==> fuel > st.store[v2].v.n
    ensures IterationSpec(Exec(IterationCode(v1, isMapType, v2, res, k), st, ord, fuel), st, v1, v2, res, k)
  {
    hide Exec, Step, Eval, IterIfPart, Power, IfPartNames;
    var tmpMap, n := Fresh("tmpMap", k), Fresh("n", k + 1);
    var head := [Alloc(tmpMap, CopyMap(AsMap(v1, isMapType))), If(Not(IsNat(Var(v2))), [RunTime], []),
        Set(n, IntValue(Var(v2)))];
    var mid, last := IterIfPart(n, tmpMap, k + 2), Set(res, Var(tmpMap));
    IterationHead(st, v1, isMapType, v2, k, ord, fuel);
    ExecAppend(head, mid + [last], st, ord, fuel);
    assert head + (mid + [last]) == IterationCode(v1, isMapType, v2, res, k);
    if st.IsMapAt(st.store[v1]) && IsNatSlot(st.store[v2]) {
      var m, nn, t := st.heap[st.store[v1].addr].m, st.store[v2].v.n, |st.heap|;
      var st1 := Exec(head, st, ord, fuel).st;
      IfPartNamesFresh(n, tmpMap, k);
      IfPartRuns(st1, m, nn, n, tmpMap, t, k + 2, ord, fuel);
      ExecAppend(mid, [last], st1, ord, fuel);
      var r := Exec(mid, st1, ord, fuel);
      if r.Done? {
        IfPartKeepsOld(st, st1, r.st, t, res, k);
        ReturnLast(st, r.st, tmpMap, t, Power(m, nn), res, k, ord, fuel);
      }
    }
  }

  lemma {:induction false} IfPartNamesFresh(n: Name, tmpMap: Name, k: nat)
    requires tmpMap == Fresh("tmpMap", k) && n == Fresh("n", k + 1)
    ensures {n, tmpMap} !! IfPartNames(k + 2)
    ensures forall x :: x in IfPartNames(k + 2) ==> !Old(x, k)
  {
  }

  lemma {:induction false} IfPartKeepsOld(st: State, st1: State, st2: State, t: nat, res: Name, k: nat)
    requires t == |st.heap| && Preserves(st, st1, res, k) && |st1.heap| == t + 1
    requires Extends(st1, st2, t, IfPartNames(k + 2))
    ensures Preserves(st, st2, res, k)
  {
    IfPartNamesFresh(Fresh("n", k + 1), Fresh("tmpMap", k), k);
    hide IfPartNames;
  }

  lemma {:induction false} ReturnLast(st: State, st2: State, tmpMap: Name, t: nat, m: map<Value, Value>, res: Name,
                                      k: nat, ord: Order, fuel: nat)
    requires Preserves(st, st2, res, k) && Holds(st2, tmpMap, t, m) && !Old(tmpMap, k)
    ensures Returns(Exec([Set(res, Var(tmpMap))], st2, ord, fuel), st, res, m, k)
  {
    EvalMapVar(st2, tmpMap, t, m);
    ExecOne(Set(res, Var(tmpMap)), st2, ord, fuel);
  }
}
