/**
 The Java statements the code generator emits for VDM maps, with an interpreter:
 maps and sets are objects on a heap, copies are explicit, and every for loop may
 visit its collection in any order.
 */
module JavaStatements {
  import opened VdmValues

  datatype Name = Source(id: string) | Fresh(base: string, no: nat)

  datatype Expr =
    | Var(n: Name)
    | Get(m: Expr, k: Expr)             // m.get(k)
    | ContainsKey(m: Expr, k: Expr)     // m.containsKey(k)
    | Contains(s: Expr, x: Expr)        // UTIL.Contains(s, x)
    | ContainsAll(big: Coll, small: Coll)
    | Equals(a: Expr, b: Expr)          // UTIL.equals(a, b)
    | Not(e: Expr)
    | IsMap(e: Expr)                    // e instanceof Map
    | Cast(e: Expr)                     // (Map) e
    | CastSet(e: Expr)                  // (Set) e
    | IsNat(e: Expr)
    | IntValue(e: Expr)
    | IntLit(i: int)
    | BoolLit(on: bool)
    | Lt(a: Expr, b: Expr)
    | Eq(a: Expr, b: Expr)
    | Neq(a: Expr, b: Expr)

  datatype Coll = KeySet(m: Expr) | Values(m: Expr) | Elements(s: Expr)

  datatype New = EmptyMap | CopyMap(m: Expr) | CopySet(c: Coll)

  datatype Stmt =
    | Set(n: Name, e: Expr)                       // declaration or assignment
    | Alloc(n: Name, what: New)                   // n = new HashMap(..) / new HashSet(..)
    | Put(m: Expr, k: Expr, v: Expr)
    | PutAll(m: Expr, from: Expr)
    | RetainAll(s: Expr, c: Coll)
    | If(cond: Expr, thn: seq<Stmt>, els: seq<Stmt>)
    | ForEach(over: Coll, cond: Expr, x: Name, body: seq<Stmt>)  // iterator loop; x = it.next()
    | ForCount(count: Name, bound: Expr, body: seq<Stmt>)            // for (int c = 1; c < bound; c++)
    | RunTime                                     // UTIL.RunTime(message)

  datatype Slot = Null | Val(v: Value) | Ref(addr: nat) | Int(i: int) | Bool(b: bool)

  datatype Obj = MapObj(m: map<Value, Value>) | SetObj(s: set<Value>)

  datatype State = State(store: map<Name, Slot>, heap: seq<Obj>, ticks: nat) {
    function Bind(n: Name, s: Slot): State { this.(store := store[n := s]) }
    function WithObj(a: nat, o: Obj): State requires a < |heap| { this.(heap := heap[a := o]) }
    predicate IsMapAt(s: Slot) { s.Ref? && s.addr < |heap| && heap[s.addr].MapObj? }
    predicate IsSetAt(s: Slot) { s.Ref? && s.addr < |heap| && heap[s.addr].SetObj? }
  }

  datatype Option<T> = None | Some(value: T)

  datatype Outcome = Done(st: State) | Abort | OutOfFuel

  /** The order in which the t-th loop visits the values of a collection. */
  type Order = (nat, set<Value>) -> seq<Value>

  ghost predicate Enumerates(q: seq<Value>, s: set<Value>) {
    && (forall i, j :: 0 <= i < j < |q| ==> q[i] != q[j])
    && (forall x :: x in q <==> x in s)
  }

  ghost predicate AnyOrder(ord: Order) {
    forall t, s :: Enumerates(ord(t, s), s)
  }

  // ----- Evaluation; None is a Java run-time exception -----

  function EvalMap(e: Expr, st: State): Option<map<Value, Value>>
    decreases e, 1
  {
    var r := Eval(e, st);
    if r.Some? && st.IsMapAt(r.value) then Some(st.heap[r.value.addr].m) else None
  }

  function EvalSet(e: Expr, st: State): Option<set<Value>>
    decreases e, 1
  {
    var r := Eval(e, st);
    if r.Some? && st.IsSetAt(r.value) then Some(st.heap[r.value.addr].s) else None
  }

  function EvalColl(c: Coll, st: State): Option<set<Value>>
    decreases c, 0
  {
    match c
    case KeySet(e) => (var m := EvalMap(e, st); if m.Some? then Some(m.value.Keys) else None)
    case Values(e) => (var m := EvalMap(e, st); if m.Some? then Some(m.value.Values) else None)
    case Elements(e) => EvalSet(e, st)
  }

  function EvalBool(e: Expr, st: State): Option<bool>
    decreases e, 1
  {
    var r := Eval(e, st);
    if r.Some? && r.value.Bool? then Some(r.value.b) else None
  }

  function EvalInt(e: Expr, st: State): Option<int>
    decreases e, 1
  {
    var r := Eval(e, st);
    if r.Some? && r.value.Int? then Some(r.value.i) else None
  }

  function EvalVal(e: Expr, st: State): Option<Value>
    decreases e, 1
  {
    var r := Eval(e, st);
    if r.Some? && r.value.Val? then Some(r.value.v) else None
  }

  function Eval(e: Expr, st: State): Option<Slot>
    decreases e, 0
  {
    match e
    case Var(n) => if n in st.store then Some(st.store[n]) else None
    case Get(em, ek) =>
      var m, k := EvalMap(em, st), EvalVal(ek, st);
      if m.None? || k.None? then None
      else if k.value in m.value then Some(Val(m.value[k.value])) else Some(Null)
    case ContainsKey(em, ek) =>
      var m, k := EvalMap(em, st), EvalVal(ek, st);
      if m.None? || k.None? then None else Some(Bool(k.value in m.value))
    case Contains(es, ex) =>
      var s, x := EvalSet(es, st), EvalVal(ex, st);
      if s.None? || x.None? then None else Some(Bool(x.value in s.value))
    case ContainsAll(big, small) =>
      var b, s := EvalColl(big, st), EvalColl(small, st);
      if b.None? || s.None? then None else Some(Bool(s.value <= b.value))
    case Equals(a, b) =>
      var x, y := EvalVal(a, st), EvalVal(b, st);
      if x.None? || y.None? then None else Some(Bool(x.value == y.value))
    case Not(a) => (var x := EvalBool(a, st); if x.None? then None else Some(Bool(!x.value)))
    case IsMap(a) => (var r := Eval(a, st); if r.None? then None else Some(Bool(st.IsMapAt(r.value))))
    case Cast(a) => (var r := Eval(a, st); if r.None? || !st.IsMapAt(r.value) then None else r)
    case CastSet(a) => (var r := Eval(a, st); if r.None? || !st.IsSetAt(r.value) then None else r)
    case IsNat(a) =>
      var r := Eval(a, st);
      if r.None? then None else Some(Bool(r.value.Val? && r.value.v.Num? && r.value.v.n >= 0))
    case IntValue(a) => (var x := EvalVal(a, st); if x.None? || !x.value.Num? then None else Some(Int(x.value.n)))
    case IntLit(i) => Some(Int(i))
    case BoolLit(b) => Some(Bool(b))
    case Lt(a, b) =>
      var x, y := EvalInt(a, st), EvalInt(b, st);
      if x.None? || y.None? then None else Some(Bool(x.value < y.value))
    case Eq(a, b) =>
      var x, y := EvalInt(a, st), EvalInt(b, st);
      if x.None? || y.None? then None else Some(Bool(x.value == y.value))
    case Neq(a, b) =>
      var x, y := EvalInt(a, st), EvalInt(b, st);
      if x.None? || y.None? then None else Some(Bool(x.value != y.value))
  }

  function NewObj(w: New, st: State): Option<Obj> {
    match w
    case EmptyMap => Some(MapObj(map[]))
    case CopyMap(e) => (var m := EvalMap(e, st); if m.None? then None else Some(MapObj(m.value)))
    case CopySet(c) => (var s := EvalColl(c, st); if s.None? then None else Some(SetObj(s.value)))
  }

  // ----- Execution -----

  function Exec(ss: seq<Stmt>, st: State, ord: Order, fuel: nat): Outcome
    decreases fuel, ss, 0
  {
    if ss == [] then Done(st)
    else
      var r := Step(ss[0], st, ord, fuel);
      if r.Done? then Exec(ss[1..], r.st, ord, fuel) else r
  }

  function Step(s: Stmt, st: State, ord: Order, fuel: nat): Outcome
    decreases fuel, s, 1
  {
    match s
    case Set(n, e) => (var r := Eval(e, st); if r.None? then Abort else Done(st.Bind(n, r.value)))
    case Alloc(n, w) =>
      var o := NewObj(w, st);
      if o.None? then Abort
      else Done(State(st.store[n := Ref(|st.heap|)], st.heap + [o.value], st.ticks))
    case Put(em, ek, ev) =>
      var r, k, v := Eval(em, st), EvalVal(ek, st), EvalVal(ev, st);
      if r.None? || !st.IsMapAt(r.value) || k.None? || v.None? then Abort
      else Done(st.WithObj(r.value.addr, MapObj(st.heap[r.value.addr].m[k.value := v.value])))
    case PutAll(em, ef) =>
      var r, m := Eval(em, st), EvalMap(ef, st);
      if r.None? || !st.IsMapAt(r.value) || m.None? then Abort
      else Done(st.WithObj(r.value.addr, MapObj(st.heap[r.value.addr].m + m.value)))
    case RetainAll(es, c) =>
      var r, s := Eval(es, st), EvalColl(c, st);
      if r.None? || !st.IsSetAt(r.value) || s.None? then Abort
      else Done(st.WithObj(r.value.addr, SetObj(st.heap[r.value.addr].s * s.value)))
    case If(c, thn, els) =>
      var b := EvalBool(c, st);
      if b.None? then Abort else if b.value then Exec(thn, st, ord, fuel) else Exec(els, st, ord, fuel)
    case ForEach(over, _, _, _) =>
      var all := EvalColl(over, st);
      if all.None? then Abort
      else Iterate(s, all.value, ord(st.ticks, all.value), st.(ticks := st.ticks + 1), ord, fuel)
    case ForCount(c, _, _) => Count(s, st.Bind(c, Int(1)), ord, fuel)
    case RunTime => Abort
  }

  /** The rest of an iterator loop. next() fails if the collection was changed meanwhile. */
  function Iterate(s: Stmt, all: set<Value>, pending: seq<Value>, st: State, ord: Order, fuel: nat): Outcome
    requires s.ForEach?
    decreases fuel, s, 0, |pending|
  {
    if pending == [] then Done(st)
    else
      var go := EvalBool(s.cond, st);
      if go.None? then Abort
      else if !go.value then Done(st)
      else if EvalColl(s.over, st) != Some(all) then Abort
      else
        var r := Exec(s.body, st.Bind(s.x, Val(pending[0])), ord, fuel);
        if r.Done? then Iterate(s, all, pending[1..], r.st, ord, fuel) else r
  }

  function Count(s: Stmt, st: State, ord: Order, fuel: nat): Outcome
    requires s.ForCount?
    decreases fuel, s, 0
  {
    var c, b := EvalInt(Var(s.count), st), EvalInt(s.bound, st);
    if c.None? || b.None? then Abort
    else if c.value >= b.value then Done(st)
    else if fuel == 0 then OutOfFuel
    else
      var r := Exec(s.body, st, ord, fuel - 1);
      if r.Done? then
        var c' := EvalInt(Var(s.count), r.st);
        if c'.None? then Abort else Count(s, r.st.Bind(s.count, Int(c'.value + 1)), ord, fuel - 1)
      else r
  }

  // ----- Loops that enter each key into one map -----

  datatype Act = Enter(v: Value) | Skip | Fail

  /** What a loop must leave alone: the slots and objects it relies on. */
  datatype Frame = Frame(slots: map<Name, Slot>, objs: map<nat, Obj>)

  ghost predicate Framed(st: State, f: Frame) {
    && (forall n :: n in f.slots ==> n in st.store && st.store[n] == f.slots[n])
    && (forall a :: a in f.objs ==> a < |st.heap| && st.heap[a] == f.objs[a])
  }

  /** st' differs from st at most in the contents of the map at t and the variables in vars. */
  ghost predicate OnlyChanges(st: State, st': State, t: nat, vars: set<Name>) {
    && |st'.heap| == |st.heap|
    && (forall a :: 0 <= a < |st.heap| && a != t ==> st'.heap[a] == st.heap[a])
    && (forall n :: n in st.store && n !in vars ==> n in st'.store && st'.store[n] == st.store[n])
  }

  /** The body ended normally with the map at t changed from m to m'. */
  ghost predicate Updates(r: Outcome, st: State, t: nat, m': map<Value, Value>, f: Frame, vars: set<Name>) {
    && r.Done? && Framed(r.st, f) && OnlyChanges(st, r.st, t, vars)
    && t < |r.st.heap| && r.st.heap[t] == MapObj(m')
  }

  ghost predicate EntersOne(r: Outcome, st: State, x: Value, act: Act, t: nat, f: Frame, vars: set<Name>)
    requires t < |st.heap| && st.heap[t].MapObj?
  {
    match act
    case Fail => r == Abort
    case Skip => Updates(r, st, t, st.heap[t].m, f, vars)
    case Enter(v) => Updates(r, st, t, st.heap[t].m[x := v], f, vars)
  }

  /** Whatever the state, the body handles key x as acts says. */
  ghost predicate BodyActs(s: Stmt, acts: map<Value, Act>, t: nat, f: Frame, vars: set<Name>, ord: Order, fuel: nat)
    requires s.ForEach?
  {
    forall st, x :: x in acts && Framed(st, f) && t < |st.heap| && st.heap[t].MapObj? ==>
      EntersOne(Exec(s.body, st.Bind(s.x, Val(x)), ord, fuel), st, x, acts[x], t, f, vars)
  }

  ghost function Entered(m: map<Value, Value>, acts: map<Value, Act>, xs: set<Value>): map<Value, Value>
    requires xs <= acts.Keys
  {
    map x | x in m.Keys + xs && (x in m || acts[x].Enter?) ::
      if x in xs && acts[x].Enter? then acts[x].v else m[x]
  }

  ghost predicate SomeFail(acts: map<Value, Act>, xs: set<Value>)
    requires xs <= acts.Keys
  {
    exists x :: x in xs && acts[x].Fail?
  }

  ghost predicate OverFramed(s: Stmt, all: set<Value>, f: Frame)
    requires s.ForEach?
  {
    && s.cond == BoolLit(true)
    && forall st :: Framed(st, f) ==> EvalColl(s.over, st) == Some(all)
  }

  ghost function ToSet(q: seq<Value>): set<Value> { set x | x in q }

  lemma {:induction false} EnteredNext(m: map<Value, Value>, acts: map<Value, Act>, x: Value, rest: set<Value>)
    requires rest <= acts.Keys && x in acts && x !in rest && !acts[x].Fail?
    ensures var m' := if acts[x].Enter? then m[x := acts[x].v] else m;
            Entered(m', acts, rest) == Entered(m, acts, {x} + rest)
  {
  }

  /** One turn of an always-true iterator loop over an unchanged collection. */
  lemma {:induction false} IterateTurn(s: Stmt, all: set<Value>, pending: seq<Value>, st: State, ord: Order, fuel: nat)
    requires s.ForEach? && s.cond == BoolLit(true) && EvalColl(s.over, st) == Some(all) && pending != []
    ensures Iterate(s, all, pending, st, ord, fuel) ==
              var r := Exec(s.body, st.Bind(s.x, Val(pending[0])), ord, fuel);
              if r.Done? then Iterate(s, all, pending[1..], r.st, ord, fuel) else r
  {
    hide Exec, EvalColl;
    assert EvalBool(s.cond, st) == Some(true);
  }

  ghost predicate LoopResult(r: Outcome, st: State, acts: map<Value, Act>, xs: set<Value>, t: nat, f: Frame,
                             vars: set<Name>)
    requires xs <= acts.Keys
  {
    && (SomeFail(acts, xs) ==> r == Abort)
    && (!SomeFail(acts, xs) ==>
         t < |st.heap| && st.heap[t].MapObj? && Updates(r, st, t, Entered(st.heap[t].m, acts, xs), f, vars))
  }

  lemma {:induction false} NothingEntered(st: State, acts: map<Value, Act>, t: nat, f: Frame, vars: set<Name>)
    requires Framed(st, f) && t < |st.heap| && st.heap[t].MapObj?
    ensures LoopResult(Done(st), st, acts, {}, t, f, vars)
  {
    assert Entered(st.heap[t].m, acts, {}) == st.heap[t].m;
  }

  lemma {:induction false} FailsAt(acts: map<Value, Act>, x: Value, xs: set<Value>, st: State, t: nat, f: Frame,
                                   vars: set<Name>)
    requires xs <= acts.Keys && x in xs && acts[x].Fail?
    ensures LoopResult(Abort, st, acts, xs, t, f, vars)
  {
  }

  lemma {:induction false} OnlyChangesTransitive(st: State, st': State, st'': State, t: nat, vars: set<Name>)
    requires OnlyChanges(st, st', t, vars) && OnlyChanges(st', st'', t, vars)
    ensures OnlyChanges(st, st'', t, vars)
  {
  }

  lemma {:induction false} LoopExtends(one: Outcome, r: Outcome, st: State, acts: map<Value, Act>, x: Value,
                                       rest: set<Value>, t: nat, f: Frame, vars: set<Name>)
    requires rest <= acts.Keys && x in acts && x !in rest && !acts[x].Fail?
    requires t < |st.heap| && st.heap[t].MapObj? && EntersOne(one, st, x, acts[x], t, f, vars)
    requires LoopResult(r, one.st, acts, rest, t, f, vars)
    ensures LoopResult(r, st, acts, {x} + rest, t, f, vars)
  {
    hide Framed, OnlyChanges, Entered;
    EnteredNext(st.heap[t].m, acts, x, rest);
    if SomeFail(acts, rest) {
      var y :| y in rest && acts[y].Fail?;
      assert y in {x} + rest;
    } else {
      assert !SomeFail(acts, {x} + rest);
      OnlyChangesTransitive(st, one.st, r.st, t, vars);
    }
  }

  lemma {:induction false} EnteringTurn(s: Stmt, all: set<Value>, pending: seq<Value>, st: State, ord: Order,
                                        fuel: nat, acts: map<Value, Act>, t: nat, f: Frame, vars: set<Name>)
        returns (one: Outcome)
    requires s.ForEach? && OverFramed(s, all, f) && BodyActs(s, acts, t, f, vars, ord, fuel)
    requires pending != [] && pending[0] in acts
    requires Framed(st, f) && t < |st.heap| && st.heap[t].MapObj?
    ensures EntersOne(one, st, pending[0], acts[pending[0]], t, f, vars)
    ensures Iterate(s, all, pending, st, ord, fuel)
            == if one.Done? then Iterate(s, all, pending[1..], one.st, ord, fuel) else one
  {
    hide Exec, EvalColl, Eval, Framed, EntersOne, Iterate;
    one := Exec(s.body, st.Bind(s.x, Val(pending[0])), ord, fuel);
    IterateTurn(s, all, pending, st, ord, fuel);
  }

  lemma {:induction false} IterateEnters(s: Stmt, all: set<Value>, pending: seq<Value>, st: State, ord: Order,
                                         fuel: nat, acts: map<Value, Act>, t: nat, f: Frame, vars: set<Name>)
    requires s.ForEach? && OverFramed(s, all, f) && BodyActs(s, acts, t, f, vars, ord, fuel)
    requires ToSet(pending) <= acts.Keys
    requires forall i, j :: 0 <= i < j < |pending| ==> pending[i] != pending[j]
    requires Framed(st, f) && t < |st.heap| && st.heap[t].MapObj?
    ensures LoopResult(Iterate(s, all, pending, st, ord, fuel), st, acts, ToSet(pending), t, f, vars)
    decreases |pending|
  {
    hide Exec, EvalColl, Eval, Framed, OnlyChanges, Entered, SomeFail, LoopResult, BodyActs, OverFramed;
    if pending == [] {
      NothingEntered(st, acts, t, f, vars);
      assert ToSet(pending) == {};
    } else {
      var x, rest := pending[0], pending[1..];
      assert ToSet(pending) == {x} + ToSet(rest);
      var one := EnteringTurn(s, all, pending, st, ord, fuel, acts, t, f, vars);
      hide Iterate;
      if acts[x].Fail? {
        FailsAt(acts, x, ToSet(pending), st, t, f, vars);
      } else {
        IterateEnters(s, all, rest, one.st, ord, fuel, acts, t, f, vars);
        LoopExtends(one, Iterate(s, all, rest, one.st, ord, fuel), st, acts, x, ToSet(rest), t, f, vars);
      }
    }
  }

  lemma {:induction false} OrderEnumerates(ord: Order, t: nat, s: set<Value>)
    requires AnyOrder(ord)
    ensures Enumerates(ord(t, s), s) && ToSet(ord(t, s)) == s
  {
  }

  /** A whole loop over all: it aborts if some key fails, and otherwise the map at t
      has exactly the entries acts asks for, in whatever order the keys came. */
  lemma {:induction false} ForEachEnters(s: Stmt, all: set<Value>, st: State, ord: Order, fuel: nat,
                                         acts: map<Value, Act>, t: nat, f: Frame, vars: set<Name>)
    requires s.ForEach? && AnyOrder(ord) && OverFramed(s, all, f) && BodyActs(s, acts, t, f, vars, ord, fuel)
    requires acts.Keys == all && Framed(st, f) && t < |st.heap| && st.heap[t].MapObj?
    ensures LoopResult(Step(s, st, ord, fuel), st, acts, all, t, f, vars)
  {
    hide Exec, Eval, Iterate, AnyOrder, BodyActs;
    assert EvalColl(s.over, st) == Some(all);
    hide EvalColl;
    var q := ord(st.ticks, all);
    OrderEnumerates(ord, st.ticks, all);
    IterateEnters(s, all, q, st.(ticks := st.ticks + 1), ord, fuel, acts, t, f, vars);
  }
}
