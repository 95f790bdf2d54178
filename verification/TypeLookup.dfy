/**
 Looking up type names: where a chain of names ends, and that expanding names loses and
 gains no value where every chain ends in a definition.
 */
module TypeLookup {
  import opened VdmValues
  import opened TypeReps
  import opened TypeNormaliser
  import opened TypeMeaning
  import opened TypeOccurrences
  import opened TypeExpansion

  // ----- Chains of names -----

  /** i definitions that are bare names lead from n to m. */
  ghost predicate Chain(env: Env, n: string, m: string, i: nat)
    decreases i
  {
    if i == 0 then n == m else n in env && env[n].Named? && Chain(env, env[n].name, m, i - 1)
  }

  ghost predicate IsDefined(env: Env, m: string) { m in env && !env[m].Named? }

  /** The chain from n ends in the definition of m. */
  ghost predicate EndsAt(env: Env, n: string, m: string) { IsDefined(env, m) && exists i: nat :: Chain(env, n, m, i) }

  ghost predicate Leaves(env: Env, n: string) { exists m, i: nat :: Chain(env, n, m, i) && m !in env }

  ghost predicate Closes(env: Env, n: string) {
    exists m, i: nat, j: nat :: Chain(env, n, m, i) && j > 0 && Chain(env, m, m, j)
  }

  ghost predicate Before(env: Env, n: string, m: string) { exists k: nat :: k > 0 && Chain(env, n, m, k) }

  lemma {:induction false} ChainOn(env: Env, n: string, a: string, b: string, i: nat, k: nat)
    requires Chain(env, n, a, i) && Chain(env, a, b, k)
    ensures Chain(env, n, b, i + k)
    decreases i
  {
    if i > 0 { ChainOn(env, env[n].name, a, b, i - 1, k); }
  }

  /** There is one chain: what is farther on it is reached from what is nearer. */
  lemma {:induction false} ChainBeyond(env: Env, n: string, a: string, b: string, i: nat, k: nat)
    requires Chain(env, n, a, i) && Chain(env, n, b, k) && i <= k
    ensures Chain(env, a, b, k - i)
    decreases i
  {
    if i > 0 { ChainBeyond(env, env[n].name, a, b, i - 1, k - 1); }
  }

  ghost predicate Last(env: Env, m: string) { m in env ==> !env[m].Named? }

  lemma {:induction false} OneLast(env: Env, n: string, a: string, b: string, i: nat, k: nat)
    requires Chain(env, n, a, i) && Chain(env, n, b, k) && Last(env, a) && Last(env, b)
    ensures a == b
  {
    if i <= k { ChainBeyond(env, n, a, b, i, k); } else { ChainBeyond(env, n, b, a, k, i); }
  }

  lemma {:induction false} ClosedHasNoLast(env: Env, m: string, b: string, j: nat, k: nat)
    requires j > 0 && Chain(env, m, m, j) && Chain(env, m, b, k)
    ensures !Last(env, b)
    decreases k
  {
    if j <= k {
      ChainBeyond(env, m, m, b, j, k);
      ClosedHasNoLast(env, m, b, j, k - j);
    } else {
      ChainBeyond(env, m, b, m, k, j);
    }
  }

  /** Where the search stops; dones are names that lead here. */
  lemma {:induction false} Trace(env: Env, n: string, dones: set<string>) returns (m: string, i: nat)
    requires forall x :: x in dones ==> Before(env, x, n)
    ensures Chain(env, n, m, i)
    ensures IsDefined(env, m) || m !in env || Before(env, m, m)
    ensures LOThelp(env, Named(n), dones) == if IsDefined(env, m) && m !in dones then env[m] else All
    ensures IsDefined(env, m) ==> m !in dones
    decreases env.Keys - dones
  {
    m, i := n, 0;
    if n in dones {
      assert Before(env, n, n);
    } else if n in env && env[n].Named? {
      var next := env[n].name;
      assert n in env.Keys - dones;
      forall x | x in dones + {n} ensures Before(env, x, next) { OneMore(env, x, n, next); }
      var j;
      m, j := Trace(env, next, dones + {n});
      i := j + 1;
    }
  }

  lemma {:induction false} OneMore(env: Env, x: string, n: string, next: string)
    requires n in env && env[n] == Named(next)
    requires x == n || Before(env, x, n)
    ensures Before(env, x, next)
  {
    assert Chain(env, next, next, 0) && Chain(env, n, next, 1);
    if k: nat :| k > 0 && Chain(env, x, n, k) {
      ChainOn(env, x, n, next, k, 1);
      assert k + 1 > 0 && Chain(env, x, next, k + 1);
    }
  }

  /** A name whose chain ends in a definition stands for that definition. */
  lemma {:induction false} LOTIsDefinition(env: Env, n: string, m: string)
    requires EndsAt(env, n, m)
    ensures LOT(env, Named(n)) == env[m]
  {
    var i: nat :| Chain(env, n, m, i);
    var b, k := Trace(env, n, {});
    if j: nat :| j > 0 && Chain(env, b, b, j) {
      FollowsToLast(env, n, m, i, b, k, j);
    } else {
      OneLast(env, n, m, b, i, k);
    }
  }

  lemma {:induction false} FollowsToLast(env: Env, n: string, m: string, i: nat, b: string, k: nat, j: nat)
    requires Chain(env, n, m, i) && Last(env, m) && Chain(env, n, b, k) && j > 0
    ensures !Chain(env, b, b, j)
  {
    if Chain(env, b, b, j) {
      if k <= i {
        ChainBeyond(env, n, b, m, k, i);
        ClosedHasNoLast(env, b, m, j, i - k);
      } else {
        ChainBeyond(env, n, m, b, i, k);
      }
    }
  }

  /** A name stands for ALL exactly if its chain leaves the environment, closes on itself, or
      ends in ALL. */
  lemma {:induction false} LOTIsAllIff(env: Env, n: string)
    ensures LOT(env, Named(n)) == All <==>
              Leaves(env, n) || Closes(env, n) || exists m :: EndsAt(env, n, m) && env[m] == All
  {
    hide LOT;
    if m :| EndsAt(env, n, m) {
      LOTIsDefinition(env, n, m);
      var i: nat :| Chain(env, n, m, i);
      forall b | EndsAt(env, n, b) ensures b == m {
        var k: nat :| Chain(env, n, b, k);
        OneLast(env, n, m, b, i, k);
      }
      if b, k: nat :| Chain(env, n, b, k) && b !in env { OneLast(env, n, m, b, i, k); }
      if b, k: nat, j: nat :| Chain(env, n, b, k) && j > 0 && Chain(env, b, b, j) {
        FollowsToLast(env, n, m, i, b, k, j);
      }
    } else {
      NotDefined(env, n);
    }
  }

  lemma {:induction false} NotDefined(env: Env, n: string)
    requires forall m :: !EndsAt(env, n, m)
    ensures LOT(env, Named(n)) == All && (Leaves(env, n) || Closes(env, n))
  {
    var m, i := Trace(env, n, {});
    assert !EndsAt(env, n, m);
  }

  // ----- Expanding names changes no meaning -----

  /** The chain of n ends in a definition. */
  ghost predicate Grounded(env: Env, n: string) { exists m :: EndsAt(env, n, m) }

  ghost predicate AllGrounded(env: Env, t: Type) { forall n, d: nat :: At(Outside, t, n, d) ==> Grounded(env, n) }

  /** Every name used in a definition is defined, and no chain of names closes. */
  ghost predicate GroundedEnv(env: Env) { forall n :: n in env ==> AllGrounded(env, env[n]) }

  lemma {:induction false} ChainMeans(env: Env, n: string, m: string, i: nat, v: Value, I: Interp)
    requires Respects(I, env) && Chain(env, n, m, i)
    ensures I.named(n, v) <==> I.named(m, v)
    decreases i
  {
    if i > 0 { ChainMeans(env, env[n].name, m, i - 1, v, I); }
  }

  lemma {:induction false} LOTExact(env: Env, n: string, v: Value, I: Interp)
    requires Respects(I, env) && Grounded(env, n)
    ensures In(v, LOT(env, Named(n)), I) <==> I.named(n, v)
    ensures exists m :: m in env && LOT(env, Named(n)) == env[m]
  {
    hide In, LOT;
    var m :| EndsAt(env, n, m);
    var i: nat :| Chain(env, n, m, i);
    LOTIsDefinition(env, n, m);
    ChainMeans(env, n, m, i, v, I);
  }

  lemma {:induction false} PartGrounded(env: Env, t: Type, p: Type)
    requires AllGrounded(env, t) && p in Parts(Outside, t)
    ensures AllGrounded(env, p)
  {
    hide At, Parts, Grounded;
    forall n, d: nat | At(Outside, p, n, d) ensures Grounded(env, n) { PartAt(Outside, t, p, n, d); }
  }

  /** No function types are in the way, or their meaning is that of their parts. */
  ghost predicate Plain(env: Env, t: Type, I: Interp) {
    (FirstOrderEnv(env) && Free(NoFunctions, t)) || Extensional(I)
  }

  /** Where all names used are defined, expansion loses no value and gains none, recursive or not. */
  lemma {:induction false} ExpandExact(env: Env, t: Type, nms: set<string>, v: Value, I: Interp)
    requires Plain(env, t, I) && GroundedEnv(env) && Respects(I, env) && AllGrounded(env, t)
    ensures In(v, Expand(env, t, nms), I) <==> In(v, t, I)
    decreases env.Keys - nms, if t.All? then 0 else 1, t, 1
  {
    hide At, Grounded, Extensional, GroundedEnv, Respects, FirstOrderEnv, In, Expand;
    forall p | p in Parts(Outside, t) ensures AllGrounded(env, p) { PartGrounded(env, t, p); }
    match t
    case Union(ts) =>
      forall m | m in ts { ExpandExact(env, m, nms, v, I); }
      UnionExact(env, t, nms, v, I);
    case Product(_) => ExpandProductExact(env, t, nms, v, I);
    case SetOf(_) => ExpandElemsExact(env, t, nms, v, I);
    case SeqOf(_) => ExpandElemsExact(env, t, nms, v, I);
    case MapOf(_, _) => ExpandMapExact(env, t, nms, v, I);
    case InjMapOf(_, _) => ExpandMapExact(env, t, nms, v, I);
    case Inv(_, _) => ExpandInvExact(env, t, nms, v, I);
    case Named(n) => ExpandNameExact(env, n, nms, v, I);
    case Fn(_, _, _) => ExpandFnExact(env, t, nms, v, I);
    case _ => LeafExact(env, t, nms, v, I);
  }

  lemma {:induction false} LeafExact(env: Env, t: Type, nms: set<string>, v: Value, I: Interp)
    requires t.Basic? || t.All? || t.TypeVar? || t.EmptySet? || t.EmptySeq? || t.EmptyMap? || t.Composite?
    ensures In(v, Expand(env, t, nms), I) <==> In(v, t, I)
  {
  }

  lemma {:induction false} ExpandInvExact(env: Env, t: Type, nms: set<string>, v: Value, I: Interp)
    requires Plain(env, t, I) && GroundedEnv(env) && Respects(I, env) && AllGrounded(env, t) && t.Inv?
    ensures In(v, Expand(env, t, nms), I) <==> In(v, t, I)
    decreases env.Keys - nms, 1, t, 0
  {
    hide At, Grounded, Extensional, GroundedEnv, Respects, FirstOrderEnv;
    PartGrounded(env, t, t.shape);
    assert env.Keys - (nms + {t.name}) <= env.Keys - nms;
    assert t.name in env && t.name !in nms ==> t.name in env.Keys - nms;
    ExpandExact(env, t.shape, nms + {t.name}, v, I);
  }

  lemma {:induction false} ExpandProductExact(env: Env, t: Type, nms: set<string>, v: Value, I: Interp)
    requires Plain(env, t, I) && GroundedEnv(env) && Respects(I, env) && AllGrounded(env, t) && t.Product?
    ensures In(v, Expand(env, t, nms), I) <==> In(v, t, I)
    decreases env.Keys - nms, 1, t, 0
  {
    hide At, Grounded, Extensional, GroundedEnv, Respects, FirstOrderEnv;
    if v.TupleV? && |v.comps| == |t.parts| {
      forall i | 0 <= i < |t.parts|
        ensures In(v.comps[i], Expand(env, t.parts[i], nms), I) <==> In(v.comps[i], t.parts[i], I)
      {
        PartGrounded(env, t, t.parts[i]);
        ExpandExact(env, t.parts[i], nms, v.comps[i], I);
      }
    }
  }

  lemma {:induction false} ExpandNameExact(env: Env, n: string, nms: set<string>, v: Value, I: Interp)
    requires Plain(env, Named(n), I) && GroundedEnv(env) && Respects(I, env) && AllGrounded(env, Named(n))
    ensures In(v, Expand(env, Named(n), nms), I) <==> In(v, Named(n), I)
    decreases env.Keys - nms, 1, Named(n), 0
  {
    hide At, Grounded, Extensional, GroundedEnv, Respects, FirstOrderEnv;
    if n !in nms {
      NameAt(Outside, n);
      LOTExact(env, n, v, I);
      LOTPlain(env, n, I);
      assert n in env.Keys - nms;
      ExpandExact(env, LOT(env, Named(n)), nms + {n}, v, I);
    }
  }

  lemma {:induction false} ExpandElemsExact(env: Env, t: Type, nms: set<string>, v: Value, I: Interp)
    requires Plain(env, t, I) && GroundedEnv(env) && Respects(I, env) && AllGrounded(env, t) && (t.SetOf? || t.SeqOf?)
    ensures In(v, Expand(env, t, nms), I) <==> In(v, t, I)
    decreases env.Keys - nms, 1, t, 0
  {
    hide At, Grounded, Extensional, GroundedEnv, Respects, FirstOrderEnv;
    PartGrounded(env, t, t.elem);
    if t.SetOf? && v.SetV? { forall x | x in v.elems { ExpandExact(env, t.elem, nms, x, I); } }
    if t.SeqOf? && v.SeqV? { forall x | x in v.items { ExpandExact(env, t.elem, nms, x, I); } }
  }

  lemma {:induction false} ExpandFnExact(env: Env, t: Type, nms: set<string>, v: Value, I: Interp)
    requires t.Fn? && Extensional(I) && GroundedEnv(env) && Respects(I, env) && AllGrounded(env, t)
    ensures In(v, Expand(env, t, nms), I) <==> In(v, t, I)
    decreases env.Keys - nms, 1, t, 0
  {
    hide At, Grounded, Respects, GroundedEnv;
    var qs, s := ExpandAll(env, t.args, nms), Expand(env, t.result, nms);
    forall i | 0 <= i < |t.args| ensures Equal(t.args[i], qs[i], I) {
      PartGrounded(env, t, t.args[i]);
      forall x { ExpandExact(env, t.args[i], nms, x, I); }
    }
    PartGrounded(env, t, t.result);
    assert Equal(t.result, s, I) by { forall x { ExpandExact(env, t.result, nms, x, I); } }
    hide Equal;
    assert Expand(env, t, nms) == Fn(t.fnKind, qs, s);
  }

  lemma {:induction false} LOTPlain(env: Env, n: string, I: Interp)
    requires Plain(env, Named(n), I) && GroundedEnv(env) && Grounded(env, n)
    ensures n in env && Plain(env, LOT(env, Named(n)), I) && AllGrounded(env, LOT(env, Named(n)))
  {
    hide At, Extensional;
    if FirstOrderEnv(env) { LOTFirstOrder(env, Named(n), {}); }
    var m :| EndsAt(env, n, m);
    LOTIsDefinition(env, n, m);
  }

  lemma {:induction false} UnionExact(env: Env, t: Type, nms: set<string>, v: Value, I: Interp)
    requires t.Union? && forall m :: m in t.members ==> (In(v, Expand(env, m, nms), I) <==> In(v, m, I))
    ensures In(v, Expand(env, t, nms), I) <==> In(v, t, I)
  {
    assert Expand(env, t, nms) == Union(ExpandEach(env, t, nms));
    if m :| m in t.members && In(v, m, I) { InUnion(Expand(env, m, nms), ExpandEach(env, t, nms), v, I); }
  }

  lemma {:induction false} ExpandMapExact(env: Env, t: Type, nms: set<string>, v: Value, I: Interp)
    requires Plain(env, t, I) && GroundedEnv(env) && Respects(I, env)
    requires AllGrounded(env, t) && (t.MapOf? || t.InjMapOf?)
    ensures In(v, Expand(env, t, nms), I) <==> In(v, t, I)
    decreases env.Keys - nms, 1, t, 0
  {
    hide At, Grounded, Extensional, GroundedEnv, Respects, FirstOrderEnv, In, Parts;
    DomAndRng(t);
    PartGrounded(env, t, t.dom);
    PartGrounded(env, t, t.rng);
    if v.MapV? {
      forall k | k in v.entries { ExpandExact(env, t.dom, nms, k, I); }
      forall k | k in v.entries { ExpandExact(env, t.rng, nms, v.entries[k], I); }
    }
    MapExact(t, Expand(env, t, nms), v, I);
  }

  lemma {:induction false} DomAndRng(t: Type)
    requires t.MapOf? || t.InjMapOf?
    ensures t.dom in Parts(Outside, t) && t.rng in Parts(Outside, t)
  {
  }
}
