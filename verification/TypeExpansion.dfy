/**
 Replacing type names by their definitions, and the loop of FindPatIdMap that
 repeats expanding, flattening and removing invariants until nothing changes.
 C++ mode: function types are expanded too.
 */
module TypeExpansion {
  import opened VdmValues
  import opened TypeReps
  import opened TypeNormaliser
  import opened TypeMeaning
  import opened TypeNormalForm

  /** What looking up a type name answers. */
  type Env = map<string, Type>

  /** Follows a chain of names to the first type that is not a name; ALL when the
      chain ends in an undefined name or closes on itself. */
  function LOThelp(env: Env, t: Type, dones: set<string>): (r: Type)
    ensures !r.Named?
    decreases env.Keys - dones
  {
    if !t.Named? then t
    else if t.name in dones || t.name !in env then All
    else LOThelp(env, env[t.name], dones + {t.name})
  }

  function LOT(env: Env, t: Type): Type { LOThelp(env, t, {}) }

  function ExpandEach(env: Env, t: Type, nms: set<string>): set<Type>
    requires t.Union?
    decreases env.Keys - nms, 1, t, 0
  {
    set m | m in t.members :: Expand(env, m, nms)
  }

  function ExpandAll(env: Env, ts: seq<Type>, nms: set<string>): (us: seq<Type>)
    ensures |us| == |ts| && forall i :: 0 <= i < |ts| ==> us[i] == Expand(env, ts[i], nms)
    decreases env.Keys - nms, 1, ts, 0
  {
    seq(|ts|, i requires 0 <= i < |ts| => Expand(env, ts[i], nms))
  }

  /** ExpandTypeRep, total on every environment: a name already in nms stays. */
  function Expand(env: Env, t: Type, nms: set<string>): Type
    decreases env.Keys - nms, if t.All? then 0 else 1, t, 1
  {
    match t
    case Union(_) => Union(ExpandEach(env, t, nms))
    case Product(ps) => Product(ExpandAll(env, ps, nms))
    case SetOf(e) => SetOf(Expand(env, e, nms))
    case EmptySet(e) => EmptySet(Expand(env, e, nms))
    case SeqOf(e) => SeqOf(Expand(env, e, nms))
    case EmptySeq(e) => EmptySeq(Expand(env, e, nms))
    case MapOf(d, r) => MapOf(Expand(env, d, nms), Expand(env, r, nms))
    case InjMapOf(d, r) => InjMapOf(Expand(env, d, nms), Expand(env, r, nms))
    case EmptyMap(d, r) => EmptyMap(Expand(env, d, nms), Expand(env, r, nms))
    case Inv(n, s) =>
      assert n in env && n !in nms ==> n in env.Keys - nms;
      assert env.Keys - (nms + {n}) <= env.Keys - nms;
      Inv(n, Expand(env, s, nms + {n}))
    case Named(n) =>
      if n in nms then t
      else
        assert n in env ==> n in env.Keys - nms;
        assert env.Keys - (nms + {n}) <= env.Keys - nms;
        Expand(env, LOT(env, t), nms + {n})
    case Fn(k, ps, r) => Fn(k, ExpandAll(env, ps, nms), Expand(env, r, nms))
    case _ => t
  }

  function CleanFlatType(env: Env, t: Type): Type { Clean(Expand(env, t, {})) }

  function EnvPass(env: Env, t: Type): Type { RemoveInv(CleanFlatType(env, t)) }

  function Rounds(env: Env, t: Type, n: nat): Type {
    if n == 0 then t else EnvPass(env, Rounds(env, t, n - 1))
  }

  /** Some number of rounds reaches a type that the next round leaves alone. */
  ghost predicate Settles(env: Env, t: Type) {
    exists n: nat :: Rounds(env, t, n + 1) == Rounds(env, t, n)
  }

  // ----- Environments without recursion -----

  /** Every name in t, outside composites, is ranked below k; names within the shape
      of a ranked invariant type are also ranked below that type. */
  ghost predicate Below(t: Type, k: nat, rank: map<string, nat>)
    decreases t
  {
    match t
    case Named(n) => n in rank && rank[n] < k
    case SetOf(e) => Below(e, k, rank)
    case EmptySet(e) => Below(e, k, rank)
    case SeqOf(e) => Below(e, k, rank)
    case EmptySeq(e) => Below(e, k, rank)
    case MapOf(d, r) => Below(d, k, rank) && Below(r, k, rank)
    case InjMapOf(d, r) => Below(d, k, rank) && Below(r, k, rank)
    case EmptyMap(d, r) => Below(d, k, rank) && Below(r, k, rank)
    case Union(ts) => forall m :: m in ts ==> Below(m, k, rank)
    case Product(ps) => forall p :: p in ps ==> Below(p, k, rank)
    case Inv(n, s) => Below(s, k, rank) && (n in rank ==> Below(s, rank[n], rank))
    case Fn(_, ps, r) => (forall p :: p in ps ==> Below(p, k, rank)) && Below(r, k, rank)
    case _ => true
  }

  /** The ranked names are defined without recursion. */
  ghost predicate NonRecursive(env: Env, rank: map<string, nat>) {
    forall n :: n in rank && n in env ==> Below(env[n], rank[n], rank)
  }

  ghost predicate NoneBlocked(nms: set<string>, k: nat, rank: map<string, nat>) {
    forall n :: n in nms && n in rank ==> rank[n] >= k
  }

  lemma {:induction false} LOTBelow(env: Env, t: Type, dones: set<string>, k: nat, rank: map<string, nat>)
    requires NonRecursive(env, rank) && Below(t, k, rank)
    ensures Below(LOThelp(env, t, dones), if t.Named? then rank[t.name] else k, rank)
    decreases k
  {
    if t.Named? && t.name !in dones && t.name in env {
      var u := env[t.name];
      LOTBelow(env, u, dones + {t.name}, rank[t.name], rank);
      if u.Named? {
        BelowMono(LOThelp(env, u, dones + {t.name}), rank[u.name], rank[t.name], rank);
      }
    }
  }

  lemma {:induction false} BelowMono(t: Type, j: nat, k: nat, rank: map<string, nat>)
    requires Below(t, j, rank) && j <= k
    ensures Below(t, k, rank)
    decreases t
  {
    match t
    case SetOf(e) => BelowMono(e, j, k, rank);
    case EmptySet(e) => BelowMono(e, j, k, rank);
    case SeqOf(e) => BelowMono(e, j, k, rank);
    case EmptySeq(e) => BelowMono(e, j, k, rank);
    case MapOf(d, r) => BelowMono(d, j, k, rank); BelowMono(r, j, k, rank);
    case InjMapOf(d, r) => BelowMono(d, j, k, rank); BelowMono(r, j, k, rank);
    case EmptyMap(d, r) => BelowMono(d, j, k, rank); BelowMono(r, j, k, rank);
    case Union(ts) => forall m | m in ts { BelowMono(m, j, k, rank); }
    case Product(ps) => forall p | p in ps { BelowMono(p, j, k, rank); }
    case Inv(_, s) => BelowMono(s, j, k, rank);
    case Fn(_, ps, r) =>
      forall p | p in ps { BelowMono(p, j, k, rank); }
      BelowMono(r, j, k, rank);
    case _ =>
  }

  /** Without recursion no type name survives expansion, outside composites. */
  lemma {:induction false} ExpandRemovesNames(env: Env, t: Type, nms: set<string>, k: nat, rank: map<string, nat>)
    requires NonRecursive(env, rank) && Below(t, k, rank) && NoneBlocked(nms, k, rank)
    ensures Free(NoNames, Expand(env, t, nms))
    decreases k, t
  {
    match t
    case Named(n) =>
      LOTBelow(env, t, {}, k, rank);
      ExpandRemovesNames(env, LOT(env, t), nms + {n}, rank[n], rank);
    case Inv(n, s) =>
      if n in rank && rank[n] < k {
        ExpandRemovesNames(env, s, nms + {n}, rank[n], rank);
      } else {
        ExpandRemovesNames(env, s, nms + {n}, k, rank);
      }
    case Union(ts) => forall m | m in ts { ExpandRemovesNames(env, m, nms, k, rank); }
    case Product(ps) => forall i | 0 <= i < |ps| { ExpandRemovesNames(env, ps[i], nms, k, rank); }
    case SetOf(e) => ExpandRemovesNames(env, e, nms, k, rank);
    case EmptySet(e) => ExpandRemovesNames(env, e, nms, k, rank);
    case SeqOf(e) => ExpandRemovesNames(env, e, nms, k, rank);
    case EmptySeq(e) => ExpandRemovesNames(env, e, nms, k, rank);
    case MapOf(d, r) => ExpandRemovesNames(env, d, nms, k, rank); ExpandRemovesNames(env, r, nms, k, rank);
    case InjMapOf(d, r) => ExpandRemovesNames(env, d, nms, k, rank); ExpandRemovesNames(env, r, nms, k, rank);
    case EmptyMap(d, r) => ExpandRemovesNames(env, d, nms, k, rank); ExpandRemovesNames(env, r, nms, k, rank);
    case Fn(_, ps, r) =>
      forall i | 0 <= i < |ps| { ExpandRemovesNames(env, ps[i], nms, k, rank); }
      ExpandRemovesNames(env, r, nms, k, rank);
    case _ =>
  }

  /** On a type without names, expansion is the identity. */
  lemma {:induction false} ExpandIdentity(env: Env, t: Type, nms: set<string>)
    requires Free(NoNames, t)
    ensures Expand(env, t, nms) == t
    decreases t
  {
    match t
    case Union(ts) =>
      forall m | m in ts { ExpandIdentity(env, m, nms); }
      forall m | m in ts ensures m in ExpandEach(env, t, nms) { assert Expand(env, m, nms) == m; }
      assert ExpandEach(env, t, nms) == ts;
    case Product(ps) =>
      forall i | 0 <= i < |ps| { ExpandIdentity(env, ps[i], nms); }
      assert ExpandAll(env, ps, nms) == ps;
    case SetOf(e) => ExpandIdentity(env, e, nms);
    case EmptySet(e) => ExpandIdentity(env, e, nms);
    case SeqOf(e) => ExpandIdentity(env, e, nms);
    case EmptySeq(e) => ExpandIdentity(env, e, nms);
    case MapOf(d, r) => ExpandIdentity(env, d, nms); ExpandIdentity(env, r, nms);
    case InjMapOf(d, r) => ExpandIdentity(env, d, nms); ExpandIdentity(env, r, nms);
    case EmptyMap(d, r) => ExpandIdentity(env, d, nms); ExpandIdentity(env, r, nms);
    case Inv(n, s) => ExpandIdentity(env, s, nms + {n});
    case Fn(_, ps, r) =>
      forall i | 0 <= i < |ps| { ExpandIdentity(env, ps[i], nms); }
      assert ExpandAll(env, ps, nms) == ps;
      ExpandIdentity(env, r, nms);
    case _ =>
  }

  // ----- What the passes keep -----

  ghost predicate AllFree(b: Ban, s: set<Type>) {
    forall u :: u in s ==> Free(b, u)
  }

  lemma {:induction false} CombineSetsKeepsFree(b: Ban, s: set<Type>)
    requires AllFree(b, s)
    ensures AllFree(b, CombineSetTypes(SetTypes(s))) && AllFree(b, CombineSeqTypes(SeqTypes(s)))
  {
    assert AllFree(b, SetElems(SetTypes(s)));
    assert AllFree(b, SeqElems(SeqTypes(s)));
  }

  lemma {:induction false} CombineMapsKeepsFree(b: Ban, s: set<Type>)
    requires AllFree(b, s)
    ensures AllFree(b, CombineGenMapTypes(MapTypes(s)))
  {
    assert AllFree(b, MapDoms(MapTypes(s)));
    assert AllFree(b, MapRngs(MapTypes(s)));
  }

  lemma {:induction false} CombineInjMapsKeepsFree(b: Ban, s: set<Type>)
    requires AllFree(b, s)
    ensures AllFree(b, CombineInjMapTypes(InjMapTypes(s)))
  {
    assert AllFree(b, InjMapDoms(InjMapTypes(s)));
    assert AllFree(b, InjMapRngs(InjMapTypes(s)));
  }

  lemma {:induction false} OptimizeKeepsFree(b: Ban, s: set<Type>)
    requires AllFree(b, s)
    ensures AllFree(b, OptimizeType(s))
  {
    CombineSetsKeepsFree(b, s);
    CombineMapsKeepsFree(b, s);
    CombineInjMapsKeepsFree(b, s);
    hide CombineSetTypes, CombineSeqTypes, CombineGenMapTypes, CombineInjMapTypes, Free;
  }

  lemma {:induction false} MembersKeepFree(b: Ban, m: map<Type, set<Type>>)
    requires forall x, u :: x in m && u in m[x] ==> Free(b, u)
    ensures AllFree(b, CleanMembers(m))
  {
    hide OptimizeType, Free;
    OptimizeKeepsFree(b, DropEmpties(Flatten(m)));
  }

  lemma {:induction false} CleanAuxKeepsFree(b: Ban, t: Type)
    requires Free(b, t)
    ensures forall u :: u in CleanAux(t) ==> Free(b, u)
    decreases t, 0
  {
    hide CleanMembers, Clean;
    match t
    case Union(ts) =>
      var m := CleanEach(t);
      forall x, u | x in m && u in m[x] ensures Free(b, u) { CleanAuxKeepsFree(b, x); }
      MembersKeepFree(b, m);
    case SetOf(e) => CleanKeepsFree(b, e);
    case SeqOf(e) => CleanKeepsFree(b, e);
    case MapOf(d, r) => CleanKeepsFree(b, d); CleanKeepsFree(b, r);
    case InjMapOf(d, r) => CleanKeepsFree(b, d); CleanKeepsFree(b, r);
    case Inv(_, s) => CleanKeepsFree(b, s);
    case Product(ps) => forall i | 0 <= i < |ps| { CleanKeepsFree(b, ps[i]); }
    case _ =>
  }

  lemma {:induction false} CleanKeepsFree(b: Ban, t: Type)
    requires Free(b, t)
    ensures Free(b, Clean(t))
    decreases t, 1
  {
    hide CleanAux;
    CleanAuxKeepsFree(b, t);
  }

  lemma {:induction false} RemoveInvKeepsFree(b: Ban, t: Type)
    requires Free(b, t)
    ensures Free(b, RemoveInv(t))
    decreases t
  {
    match t
    case Inv(_, s) => RemoveInvKeepsFree(b, s);
    case Union(ts) =>
      forall u | u in RemoveInvEach(t) ensures Free(b, u) {
        var m :| m in ts && u == RemoveInv(m);
        RemoveInvKeepsFree(b, m);
      }
    case SetOf(e) => RemoveInvKeepsFree(b, e);
    case EmptySet(e) => RemoveInvKeepsFree(b, e);
    case SeqOf(e) => RemoveInvKeepsFree(b, e);
    case EmptySeq(e) => RemoveInvKeepsFree(b, e);
    case MapOf(d, r) => RemoveInvKeepsFree(b, d); RemoveInvKeepsFree(b, r);
    case InjMapOf(d, r) => RemoveInvKeepsFree(b, d); RemoveInvKeepsFree(b, r);
    case EmptyMap(d, r) => RemoveInvKeepsFree(b, d); RemoveInvKeepsFree(b, r);
    case Product(ps) => forall i | 0 <= i < |ps| { RemoveInvKeepsFree(b, ps[i]); }
    case Fn(_, ps, r) =>
      forall i | 0 <= i < |ps| { RemoveInvKeepsFree(b, ps[i]); }
      RemoveInvKeepsFree(b, r);
    case _ =>
  }

  // ----- Expansion only widens -----

  /** The names mean what their definitions mean; undefined names may mean anything. */
  ghost predicate Respects(I: Interp, env: Env) {
    forall n, v :: n in env ==> (I.named(n, v) <==> In(v, env[n], I))
  }

  ghost predicate FirstOrderEnv(env: Env) {
    forall n :: n in env ==> Free(NoFunctions, env[n])
  }

  lemma {:induction false} LOTCovers(env: Env, t: Type, dones: set<string>, v: Value, I: Interp)
    requires Respects(I, env) && In(v, t, I)
    ensures In(v, LOThelp(env, t, dones), I)
    decreases env.Keys - dones
  {
    if t.Named? && t.name !in dones && t.name in env {
      LOTCovers(env, env[t.name], dones + {t.name}, v, I);
    }
  }

  lemma {:induction false} LOTFirstOrder(env: Env, t: Type, dones: set<string>)
    requires FirstOrderEnv(env) && Free(NoFunctions, t)
    ensures Free(NoFunctions, LOThelp(env, t, dones))
    decreases env.Keys - dones
  {
    if t.Named? && t.name !in dones && t.name in env {
      LOTFirstOrder(env, env[t.name], dones + {t.name});
    }
  }

  /** In every environment, recursive or not, expansion loses no value. */
  lemma {:induction false} ExpandCovers(env: Env, t: Type, nms: set<string>, v: Value, I: Interp)
    requires FirstOrderEnv(env) && Respects(I, env) && Free(NoFunctions, t) && In(v, t, I)
    ensures In(v, Expand(env, t, nms), I)
    decreases env.Keys - nms, if t.All? then 0 else 1, t, 1
  {
    match t
    case Union(ts) =>
      var m :| m in ts && In(v, m, I);
      ExpandCovers(env, m, nms, v, I);
      InUnion(Expand(env, m, nms), ExpandEach(env, t, nms), v, I);
    case Product(ps) => forall i | 0 <= i < |ps| { ExpandCovers(env, ps[i], nms, v.comps[i], I); }
    case SetOf(e) => forall x | x in v.elems { ExpandCovers(env, e, nms, x, I); }
    case SeqOf(e) => forall x | x in v.items { ExpandCovers(env, e, nms, x, I); }
    case MapOf(_, _) => ExpandMapCovers(env, t, nms, v, I);
    case InjMapOf(_, _) => ExpandMapCovers(env, t, nms, v, I);
    case Inv(n, s) =>
      assert n in env && n !in nms ==> n in env.Keys - nms;
      assert env.Keys - (nms + {n}) <= env.Keys - nms;
      ExpandCovers(env, s, nms + {n}, v, I);
    case Named(n) =>
      if n !in nms {
        assert n in env ==> n in env.Keys - nms;
        assert env.Keys - (nms + {n}) <= env.Keys - nms;
        LOTCovers(env, t, {}, v, I);
        LOTFirstOrder(env, t, {});
        ExpandCovers(env, LOT(env, t), nms + {n}, v, I);
      }
    case _ =>
  }

  lemma {:induction false} ExpandMapCovers(env: Env, t: Type, nms: set<string>, v: Value, I: Interp)
    requires FirstOrderEnv(env) && Respects(I, env) && Free(NoFunctions, t) && In(v, t, I)
    requires t.MapOf? || t.InjMapOf?
    ensures In(v, Expand(env, t, nms), I)
    decreases env.Keys - nms, 1, t, 0
  {
    forall k | k in v.entries { ExpandCovers(env, t.dom, nms, k, I); }
    forall k | k in v.entries { ExpandCovers(env, t.rng, nms, v.entries[k], I); }
  }

  lemma {:induction false} ExpandFirstOrder(env: Env, t: Type, nms: set<string>)
    requires FirstOrderEnv(env) && Free(NoFunctions, t)
    ensures Free(NoFunctions, Expand(env, t, nms))
    decreases env.Keys - nms, if t.All? then 0 else 1, t
  {
    match t
    case Union(ts) => forall m | m in ts { ExpandFirstOrder(env, m, nms); }
    case Product(ps) => forall i | 0 <= i < |ps| { ExpandFirstOrder(env, ps[i], nms); }
    case SetOf(e) => ExpandFirstOrder(env, e, nms);
    case EmptySet(e) => ExpandFirstOrder(env, e, nms);
    case SeqOf(e) => ExpandFirstOrder(env, e, nms);
    case EmptySeq(e) => ExpandFirstOrder(env, e, nms);
    case MapOf(d, r) => ExpandFirstOrder(env, d, nms); ExpandFirstOrder(env, r, nms);
    case InjMapOf(d, r) => ExpandFirstOrder(env, d, nms); ExpandFirstOrder(env, r, nms);
    case EmptyMap(d, r) => ExpandFirstOrder(env, d, nms); ExpandFirstOrder(env, r, nms);
    case Inv(n, s) =>
      assert n in env && n !in nms ==> n in env.Keys - nms;
      assert env.Keys - (nms + {n}) <= env.Keys - nms;
      ExpandFirstOrder(env, s, nms + {n});
    case Named(n) =>
      if n !in nms {
        assert n in env ==> n in env.Keys - nms;
        assert env.Keys - (nms + {n}) <= env.Keys - nms;
        LOTFirstOrder(env, t, {});
        ExpandFirstOrder(env, LOT(env, t), nms + {n});
      }
    case _ =>
  }

  /** wide holds every value that t holds, whatever the names stand for. */
  ghost predicate Widens(env: Env, t: Type, wide: Type) {
    forall v, I :: Respects(I, env) && In(v, t, I) ==> In(v, wide, I)
  }

  /** One round of the loop loses no value and stays first-order. */
  lemma {:induction false} EnvPassCovers(env: Env, t: Type)
    requires FirstOrderEnv(env) && Free(NoFunctions, t)
    ensures Widens(env, t, EnvPass(env, t)) && Free(NoFunctions, EnvPass(env, t))
  {
    hide Clean, Expand, RemoveInv, In;
    var u := Expand(env, t, {});
    ExpandFirstOrder(env, t, {});
    CleanKeepsFree(NoFunctions, u);
    RemoveInvKeepsFree(NoFunctions, Clean(u));
    forall v, I | Respects(I, env) && In(v, t, I) ensures In(v, EnvPass(env, t), I) {
      ExpandCovers(env, t, {}, v, I);
      CleanCovers(u, v, I);
      RemoveInvCovers(Clean(u), v, I);
    }
  }

  /** Once the names are gone a round is a pass, and the names stay gone. */
  lemma {:induction false} EnvPassNameFree(env: Env, t: Type)
    requires Free(NoNames, t)
    ensures EnvPass(env, t) == Pass(t) && Free(NoNames, Pass(t))
  {
    hide Clean, Expand, RemoveInv;
    ExpandIdentity(env, t, {});
    CleanKeepsFree(NoNames, t);
    RemoveInvKeepsFree(NoNames, Clean(t));
  }

  // ----- Cyclic types -----

  /** FindTypeNameRep: unlike the passes, it looks into composites. */
  predicate Mentions(name: string, t: Type)
    decreases t
  {
    match t
    case Named(n) => n == name
    case SetOf(e) => Mentions(name, e)
    case EmptySet(e) => Mentions(name, e)
    case SeqOf(e) => Mentions(name, e)
    case EmptySeq(e) => Mentions(name, e)
    case MapOf(d, r) => Mentions(name, d) || Mentions(name, r)
    case InjMapOf(d, r) => Mentions(name, d) || Mentions(name, r)
    case EmptyMap(d, r) => Mentions(name, d) || Mentions(name, r)
    case Union(ts) => exists m :: m in ts && Mentions(name, m)
    case Product(ps) => exists p :: p in ps && Mentions(name, p)
    case Composite(_, fs) => exists f :: f in fs && Mentions(name, f)
    case Inv(_, s) => Mentions(name, s)
    case Fn(_, ps, r) => (exists p :: p in ps && Mentions(name, p)) || Mentions(name, r)
    case _ => false
  }

  /** Only a type that is itself a name is ever called cyclic. */
  predicate IsCyclicTypeRep(env: Env, t: Type) {
    t.Named? && Mentions(t.name, CleanFlatType(env, t))
  }

  // ----- Where the loop never ends -----

  const RECURSIVE_SET: Env := map["T" := SetOf(Named("T"))]

  function Nest(n: nat): Type {
    if n == 0 then Named("T") else SetOf(Nest(n - 1))
  }

  lemma {:induction false} NestGrows(n: nat)
    ensures Expand(RECURSIVE_SET, Nest(n), {}) == Nest(n + 1)
    ensures Clean(Nest(n)) == Nest(n) && RemoveInv(Nest(n)) == Nest(n)
  {
    if n == 0 {
      var t := Named("T");
      assert LOT(RECURSIVE_SET, t) == SetOf(t) by { assert LOThelp(RECURSIVE_SET, SetOf(t), {"T"}) == SetOf(t); }
      assert Expand(RECURSIVE_SET, SetOf(t), {"T"}) == SetOf(Expand(RECURSIVE_SET, t, {"T"}));
      assert {} + {"T"} == {"T"};
      assert Nest(1) == SetOf(Nest(0));
    } else {
      NestGrows(n - 1);
      assert CleanAux(Nest(n)) == {SetOf(Clean(Nest(n - 1)))};
    }
  }

  /** With T = set of T, the identifier type "set of T" is not recognised as cyclic and
      grows by one level in every round: the source's loop does not end on it. */
  lemma {:induction false} SetOfRecursiveNeverSettles(n: nat)
    ensures !IsCyclicTypeRep(RECURSIVE_SET, Nest(1))
    ensures Rounds(RECURSIVE_SET, Nest(1), n) == Nest(n + 1)
    ensures Rounds(RECURSIVE_SET, Nest(1), n + 1) != Rounds(RECURSIVE_SET, Nest(1), n)
  {
    hide Clean, Expand, RemoveInv, EnvPass;
    if n > 0 {
      SetOfRecursiveNeverSettles(n - 1);
      EnvPassNest(n);
    }
    EnvPassNest(n + 1);
    NestDistinct(n + 1);
  }

  lemma {:induction false} EnvPassNest(n: nat)
    ensures EnvPass(RECURSIVE_SET, Nest(n)) == Nest(n + 1)
  {
    hide Clean, Expand, RemoveInv;
    NestGrows(n);
    NestGrows(n + 1);
  }

  lemma {:induction false} NestDistinct(n: nat)
    ensures Nest(n) != Nest(n + 1)
  {
    if n > 0 { NestDistinct(n - 1); }
  }
}
