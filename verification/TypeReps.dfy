/**
 The type representations the code generator computes with, their meaning as
 sets of VDM values, and the weight that every normalisation pass lowers.
 */
module TypeReps {
  import opened VdmValues

  datatype FnKind = Partial | Total | Operation

  /** One constructor per REP tag; all atomic tags share Basic. */
  datatype Type =
    | Basic(kind: string)
    | All
    | TypeVar(name: string)
    | Named(name: string)
    | SetOf(elem: Type)
    | EmptySet(elem: Type)
    | SeqOf(elem: Type)
    | EmptySeq(elem: Type)
    | MapOf(dom: Type, rng: Type)
    | InjMapOf(dom: Type, rng: Type)
    | EmptyMap(dom: Type, rng: Type)
    | Union(members: set<Type>)
    | Product(parts: seq<Type>)
    | Composite(tag: string, fields: seq<Type>)
    | Inv(name: string, shape: Type)
    | Fn(fnKind: FnKind, args: seq<Type>, result: Type)

  // ----- Meaning -----

  /** Which values the atomic types, type variables, type names and function
      types contain, and which values satisfy a named type's invariant. */
  datatype Interp = Interp(
    basic: (string, Value) -> bool,
    typeVar: (string, Value) -> bool,
    named: (string, Value) -> bool,
    holds: (string, Value) -> bool,
    fn: (Type, Value) -> bool)

  ghost predicate Injective(m: map<Value, Value>) {
    forall a, b :: a in m && b in m && m[a] == m[b] ==> a == b
  }

  ghost predicate In(v: Value, t: Type, I: Interp)
    decreases t
  {
    match t
    case Basic(k) => I.basic(k, v)
    case All => true
    case TypeVar(n) => I.typeVar(n, v)
    case Named(n) => I.named(n, v)
    case SetOf(e) => v.SetV? && forall x :: x in v.elems ==> In(x, e, I)
    case EmptySet(_) => v == SetV({})
    case SeqOf(e) => v.SeqV? && forall x :: x in v.items ==> In(x, e, I)
    case EmptySeq(_) => v == SeqV([])
    case MapOf(d, r) => v.MapV? && forall k :: k in v.entries ==> In(k, d, I) && In(v.entries[k], r, I)
    case InjMapOf(d, r) =>
      v.MapV? && Injective(v.entries) && forall k :: k in v.entries ==> In(k, d, I) && In(v.entries[k], r, I)
    case EmptyMap(_, _) => v == MapV(map[])
    case Union(ts) => exists m :: m in ts && In(v, m, I)
    case Product(ps) =>
      v.TupleV? && |v.comps| == |ps| && forall i :: 0 <= i < |ps| ==> In(v.comps[i], ps[i], I)
    case Composite(g, fs) =>
      v.RecV? && v.tag == g && |v.comps| == |fs| && forall i :: 0 <= i < |fs| ==> In(v.comps[i], fs[i], I)
    case Inv(n, s) => In(v, s, I) && I.holds(n, v)
    case Fn(_, _, _) => I.fn(t, v)
  }

  // ----- What a type may be free of -----

  datatype Ban = NoNames | NoFunctions

  /** No type name, or no function type, outside the fields of composites. */
  ghost predicate Free(b: Ban, t: Type)
    decreases t
  {
    match t
    case Named(_) => b != NoNames
    case SetOf(e) => Free(b, e)
    case EmptySet(e) => Free(b, e)
    case SeqOf(e) => Free(b, e)
    case EmptySeq(e) => Free(b, e)
    case MapOf(d, r) => Free(b, d) && Free(b, r)
    case InjMapOf(d, r) => Free(b, d) && Free(b, r)
    case EmptyMap(d, r) => Free(b, d) && Free(b, r)
    case Union(ts) => forall m :: m in ts ==> Free(b, m)
    case Product(ps) => forall p :: p in ps ==> Free(b, p)
    case Inv(_, s) => Free(b, s)
    case Fn(_, ps, r) => b != NoFunctions && (forall p :: p in ps ==> Free(b, p)) && Free(b, r)
    case _ => true
  }

  // ----- Weight -----

  ghost function SumMap(m: map<Type, nat>): nat {
    if m == map[] then 0 else var k :| k in m; m[k] + SumMap(m - {k})
  }

  /** Union and invariant nodes weigh 1, sets and sequences 2, maps 3. */
  ghost function Weight(t: Type): (w: nat)
    ensures w >= 1
    decreases t
  {
    match t
    case SetOf(e) => 2 + Weight(e)
    case EmptySet(e) => 2 + Weight(e)
    case SeqOf(e) => 2 + Weight(e)
    case EmptySeq(e) => 2 + Weight(e)
    case MapOf(d, r) => 3 + Weight(d) + Weight(r)
    case InjMapOf(d, r) => 3 + Weight(d) + Weight(r)
    case EmptyMap(d, r) => 3 + Weight(d) + Weight(r)
    case Union(ts) => 1 + SumMap(map m | m in ts :: Weight(m))
    case Product(ps) => 1 + SeqWeight(ps)
    case Composite(_, fs) => 1 + SeqWeight(fs)
    case Inv(_, s) => 1 + Weight(s)
    case Fn(_, ps, r) => 1 + SeqWeight(ps) + Weight(r)
    case _ => 1
  }

  ghost function SetWeight(s: set<Type>): nat {
    SumMap(map m | m in s :: Weight(m))
  }

  ghost function SeqWeight(ts: seq<Type>): nat
    decreases ts
  {
    if ts == [] then 0 else Weight(ts[0]) + SeqWeight(ts[1..])
  }

  /** The arbitrary pick in SumMap does not matter. */
  lemma {:induction false} SumMapRemove(m: map<Type, nat>, k: Type)
    requires k in m
    ensures SumMap(m) == m[k] + SumMap(m - {k})
    decreases m
  {
    var p :| p in m && SumMap(m) == m[p] + SumMap(m - {p});
    if p != k {
      SumMapRemove(m - {p}, k);
      SumMapRemove(m - {k}, p);
      assert m - {p} - {k} == m - {k} - {p};
    }
  }

  lemma {:induction false} SetWeightInsert(s: set<Type>, t: Type)
    requires t !in s
    ensures SetWeight(s + {t}) == SetWeight(s) + Weight(t)
  {
    var m := map x | x in s + {t} :: Weight(x);
    SumMapRemove(m, t);
    assert m - {t} == map x | x in s :: Weight(x);
  }

  lemma {:induction false} SetWeightRemove(s: set<Type>, t: Type)
    requires t in s
    ensures SetWeight(s) == SetWeight(s - {t}) + Weight(t)
  {
    SetWeightInsert(s - {t}, t);
    assert s - {t} + {t} == s;
  }

  lemma {:induction false} SetWeightEmpty()
    ensures SetWeight({}) == 0
  {
  }

  lemma {:induction false} SetWeightSingleton(t: Type)
    ensures SetWeight({t}) == Weight(t)
  {
    SetWeightInsert({}, t);
    assert {} + {t} == {t};
  }

  lemma {:induction false} SetWeightUnion(a: set<Type>, b: set<Type>)
    ensures SetWeight(a + b) <= SetWeight(a) + SetWeight(b)
    ensures SetWeight(a + b) == SetWeight(a) + SetWeight(b) <==> a !! b
    decreases b
  {
    if b == {} {
      assert a + b == a;
    } else {
      var t :| t in b;
      var b' := b - {t};
      SetWeightUnion(a, b');
      SetWeightRemove(b, t);
      if t in a {
        assert a + b == a + b';
      } else {
        SetWeightInsert(a + b', t);
        assert a + b' + {t} == a + b;
      }
    }
  }

  lemma {:induction false} SetWeightSubset(a: set<Type>, b: set<Type>)
    requires a <= b
    ensures SetWeight(a) <= SetWeight(b)
    ensures SetWeight(a) == SetWeight(b) ==> a == b
  {
    SetWeightUnion(a, b - a);
    assert a + (b - a) == b;
    if a != b {
      var t :| t in b - a;
      SetWeightRemove(b - a, t);
    }
  }

  lemma {:induction false} SeqWeightMono(a: seq<Type>, b: seq<Type>)
    requires |a| == |b|
    requires forall i :: 0 <= i < |a| ==> Weight(a[i]) <= Weight(b[i])
    requires forall i :: 0 <= i < |a| && Weight(a[i]) == Weight(b[i]) ==> a[i] == b[i]
    ensures SeqWeight(a) <= SeqWeight(b)
    ensures SeqWeight(a) == SeqWeight(b) ==> a == b
    decreases |a|
  {
    if a != [] {
      SeqWeightMono(a[1..], b[1..]);
      assert a == [a[0]] + a[1..] && b == [b[0]] + b[1..];
    }
  }
}
