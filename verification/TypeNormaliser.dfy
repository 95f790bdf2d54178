/**
 CleanAndFlattenType, OptimizeType and RemoveInvType: what one pass computes,
 that it never adds weight, and that it changes nothing only on normal forms.
 */
module TypeNormaliser {
  import opened TypeReps

  // ----- The passes -----

  function TheElement(s: set<Type>): (t: Type)
    requires |s| == 1
    ensures s == {t}
  {
    SingletonHasOneElement(s);
    var t :| t in s && forall u :: u in s ==> u == t;
    t
  }

  lemma {:induction false} SingletonHasOneElement(s: set<Type>)
    requires |s| == 1
    ensures exists t :: t in s && forall u :: u in s ==> u == t
  {
    var t :| t in s;
    assert |s - {t}| == 0;
    assert forall u :: u in s ==> u == t;
  }

  /** A one-element result stands for itself, any other becomes a union. */
  function Wrap(s: set<Type>): Type {
    if |s| == 1 then TheElement(s) else Union(s)
  }

  function Flatten(m: map<Type, set<Type>>): set<Type> {
    set t, u | t in m && u in m[t] :: u
  }

  /** An empty-collection type is dropped when the collection type itself is present. */
  predicate Absorbed(t: Type, s: set<Type>) {
    match t
    case EmptySet(e) => SetOf(e) in s
    case EmptySeq(e) => SeqOf(e) in s
    case EmptyMap(d, r) => MapOf(d, r) in s || InjMapOf(d, r) in s
    case _ => false
  }

  function DropEmpties(s: set<Type>): set<Type> {
    set t | t in s && !Absorbed(t, s)
  }

  function SetTypes(s: set<Type>): set<Type> { set t | t in s && t.SetOf? }
  function SeqTypes(s: set<Type>): set<Type> { set t | t in s && t.SeqOf? }
  function MapTypes(s: set<Type>): set<Type> { set t | t in s && t.MapOf? }
  function InjMapTypes(s: set<Type>): set<Type> { set t | t in s && t.InjMapOf? }

  function SetElems(s: set<Type>): set<Type> { set t | t in s && t.SetOf? :: t.elem }
  function SeqElems(s: set<Type>): set<Type> { set t | t in s && t.SeqOf? :: t.elem }
  function MapDoms(s: set<Type>): set<Type> { set t | t in s && t.MapOf? :: t.dom }
  function MapRngs(s: set<Type>): set<Type> { set t | t in s && t.MapOf? :: t.rng }
  function InjMapDoms(s: set<Type>): set<Type> { set t | t in s && t.InjMapOf? :: t.dom }
  function InjMapRngs(s: set<Type>): set<Type> { set t | t in s && t.InjMapOf? :: t.rng }

  function CombineSetTypes(s: set<Type>): set<Type> {
    if |s| <= 1 then s else {SetOf(Union(SetElems(s)))}
  }

  function CombineSeqTypes(s: set<Type>): set<Type> {
    if |s| <= 1 then s else {SeqOf(Union(SeqElems(s)))}
  }

  function CombineGenMapTypes(s: set<Type>): set<Type> {
    if |s| <= 1 then s else {MapOf(Union(MapDoms(s)), Union(MapRngs(s)))}
  }

  function CombineInjMapTypes(s: set<Type>): set<Type> {
    if |s| <= 1 then s else {InjMapOf(Union(InjMapDoms(s)), Union(InjMapRngs(s)))}
  }

  predicate IsCollection(t: Type) {
    t.SetOf? || t.SeqOf? || t.MapOf? || t.InjMapOf?
  }

  function Others(s: set<Type>): set<Type> { set t | t in s && !IsCollection(t) }

  function OptimizeType(s: set<Type>): set<Type> {
    Others(s) + CombineSetTypes(SetTypes(s)) + CombineSeqTypes(SeqTypes(s))
    + CombineGenMapTypes(MapTypes(s)) + CombineInjMapTypes(InjMapTypes(s))
  }

  /** What a union becomes, given the cleaned form of each member. */
  function CleanMembers(m: map<Type, set<Type>>): set<Type> {
    OptimizeType(DropEmpties(Flatten(m)))
  }

  function Clean(t: Type): Type
    decreases t, 2
  {
    Wrap(CleanAux(t))
  }

  function CleanEach(t: Type): (m: map<Type, set<Type>>)
    requires t.Union?
    ensures m.Keys == t.members
    decreases t, 0
  {
    map m | m in t.members :: CleanAux(m)
  }

  function CleanAll(ts: seq<Type>): (us: seq<Type>)
    ensures |us| == |ts| && forall i :: 0 <= i < |ts| ==> us[i] == Clean(ts[i])
    decreases ts, 0
  {
    seq(|ts|, i requires 0 <= i < |ts| => Clean(ts[i]))
  }

  function CleanAux(t: Type): set<Type>
    decreases t, 1
  {
    match t
    case SetOf(e) => {SetOf(Clean(e))}
    case SeqOf(e) => {SeqOf(Clean(e))}
    case Composite(g, fs) => {Composite(g, CleanAll(fs))}
    case Union(_) => CleanMembers(CleanEach(t))
    case Product(ps) => {Product(CleanAll(ps))}
    case MapOf(d, r) => {MapOf(Clean(d), Clean(r))}
    case InjMapOf(d, r) => {InjMapOf(Clean(d), Clean(r))}
    case Inv(n, s) => {Inv(n, Clean(s))}
    case _ => {t}
  }

  function RemoveInvEach(t: Type): set<Type>
    requires t.Union?
    decreases t, 0
  {
    set m | m in t.members :: RemoveInv(m)
  }

  function RemoveInvAll(ts: seq<Type>): (us: seq<Type>)
    ensures |us| == |ts| && forall i :: 0 <= i < |ts| ==> us[i] == RemoveInv(ts[i])
    decreases ts, 0
  {
    seq(|ts|, i requires 0 <= i < |ts| => RemoveInv(ts[i]))
  }

  function RemoveInv(t: Type): Type
    decreases t, 1
  {
    match t
    case Inv(_, s) => RemoveInv(s)
    case Union(_) => Wrap(RemoveInvEach(t))
    case SetOf(e) => SetOf(RemoveInv(e))
    case EmptySet(e) => EmptySet(RemoveInv(e))
    case SeqOf(e) => SeqOf(RemoveInv(e))
    case EmptySeq(e) => EmptySeq(RemoveInv(e))
    case MapOf(d, r) => MapOf(RemoveInv(d), RemoveInv(r))
    case InjMapOf(d, r) => InjMapOf(RemoveInv(d), RemoveInv(r))
    case EmptyMap(d, r) => EmptyMap(RemoveInv(d), RemoveInv(r))
    case Product(ps) => Product(RemoveInvAll(ps))
    case Fn(k, ps, r) => Fn(k, RemoveInvAll(ps), RemoveInv(r))
    case _ => t
  }

  function Pass(t: Type): Type { RemoveInv(Clean(t)) }

  // ----- No pass adds weight, and an unchanged weight means an unchanged type -----

  lemma {:induction false} WrapWeight(s: set<Type>)
    ensures Weight(Wrap(s)) <= 1 + SetWeight(s)
    ensures |s| == 1 ==> Weight(Wrap(s)) == SetWeight(s)
    ensures |s| != 1 ==> Wrap(s) == Union(s)
  {
    if |s| == 1 { SetWeightSingleton(TheElement(s)); }
  }

  /** f(m) stands for what a pass makes of member m. */
  ghost predicate Shrinks(m: map<Type, set<Type>>) {
    forall t :: t in m ==> SetWeight(m[t]) <= Weight(t) && (SetWeight(m[t]) == Weight(t) ==> m[t] == {t})
  }

  lemma {:induction false} FlattenStep(m: map<Type, set<Type>>, t: Type)
    requires t in m
    ensures Flatten(m) == Flatten(m - {t}) + m[t]
  {
    var m' := m - {t};
    forall u | u in Flatten(m) ensures u in Flatten(m') + m[t] {
      var x :| x in m && u in m[x];
      if x != t { assert x in m' && u in m'[x]; }
    }
    forall u | u in Flatten(m') ensures u in Flatten(m) {
      var x :| x in m' && u in m'[x];
      assert x in m && u in m[x];
    }
  }

  lemma {:induction false} FlattenWeight(m: map<Type, set<Type>>)
    requires Shrinks(m)
    ensures SetWeight(Flatten(m)) <= SetWeight(m.Keys)
    ensures SetWeight(Flatten(m)) == SetWeight(m.Keys) ==> Flatten(m) == m.Keys && Singletons(m)
    decreases |m|
  {
    if m.Keys == {} {
      assert Flatten(m) == {};
    } else {
      var t :| t in m;
      FlattenWeight(m - {t});
      FlattenWeightStep(m, t);
    }
  }

  ghost predicate Singletons(m: map<Type, set<Type>>) {
    forall t :: t in m ==> m[t] == {t}
  }

  lemma {:induction false} SingletonsExtend(m: map<Type, set<Type>>, t: Type)
    requires t in m && m[t] == {t} && Singletons(m - {t})
    ensures Singletons(m)
    ensures Flatten(m - {t}) == (m - {t}).Keys ==> Flatten(m) == m.Keys
  {
    FlattenStep(m, t);
    forall x | x in m ensures m[x] == {x} { if x != t { assert (m - {t})[x] == {x}; } }
  }

  lemma {:induction false} FlattenWeightStep(m: map<Type, set<Type>>, t: Type)
    requires t in m
    requires SetWeight(m[t]) <= Weight(t) && (SetWeight(m[t]) == Weight(t) ==> m[t] == {t})
    requires SetWeight(Flatten(m - {t})) <= SetWeight((m - {t}).Keys)
    requires SetWeight(Flatten(m - {t})) == SetWeight((m - {t}).Keys) ==>
               Flatten(m - {t}) == (m - {t}).Keys && Singletons(m - {t})
    ensures SetWeight(Flatten(m)) <= SetWeight(m.Keys)
    ensures SetWeight(Flatten(m)) == SetWeight(m.Keys) ==> Flatten(m) == m.Keys && Singletons(m)
  {
    var m' := m - {t};
    assert m'.Keys == m.Keys - {t};
    FlattenStep(m, t);
    SetWeightUnion(Flatten(m'), m[t]);
    SetWeightRemove(m.Keys, t);
    if SetWeight(Flatten(m)) == SetWeight(m.Keys) {
      SingletonsExtend(m, t);
    }
  }

  lemma {:induction false} DropEmptiesWeight(s: set<Type>)
    ensures SetWeight(DropEmpties(s)) <= SetWeight(s)
    ensures SetWeight(DropEmpties(s)) == SetWeight(s) ==> DropEmpties(s) == s
  {
    SetWeightSubset(DropEmpties(s), s);
  }

  function ElemsOf(s: set<Type>): set<Type> { set t | t in s && (t.SetOf? || t.SeqOf?) :: t.elem }
  function DomsOf(s: set<Type>): set<Type> { set t | t in s && (t.MapOf? || t.InjMapOf?) :: t.dom }
  function RngsOf(s: set<Type>): set<Type> { set t | t in s && (t.MapOf? || t.InjMapOf?) :: t.rng }

  lemma {:induction false} ElemsWeight(s: set<Type>)
    requires forall t :: t in s ==> t.SetOf? || t.SeqOf?
    ensures SetWeight(ElemsOf(s)) + 2 * |s| <= SetWeight(s)
    decreases s
  {
    if s != {} {
      var t :| t in s;
      ElemsWeight(s - {t});
      SetWeightRemove(s, t);
      assert ElemsOf(s) == ElemsOf(s - {t}) + {t.elem};
      SetWeightUnion(ElemsOf(s - {t}), {t.elem});
      SetWeightSingleton(t.elem);
    } else {
      assert ElemsOf(s) == {};
    }
  }

  lemma {:induction false} MapPartsWeight(s: set<Type>)
    requires forall t :: t in s ==> t.MapOf? || t.InjMapOf?
    ensures SetWeight(DomsOf(s)) + SetWeight(RngsOf(s)) + 3 * |s| <= SetWeight(s)
    decreases s
  {
    hide SetWeight;
    if s != {} {
      var t :| t in s;
      MapPartsWeight(s - {t});
      SetWeightRemove(s, t);
      assert DomsOf(s) == DomsOf(s - {t}) + {t.dom};
      assert RngsOf(s) == RngsOf(s - {t}) + {t.rng};
      SetWeightUnion(DomsOf(s - {t}), {t.dom});
      SetWeightUnion(RngsOf(s - {t}), {t.rng});
      SetWeightSingleton(t.dom);
      SetWeightSingleton(t.rng);
    } else {
      assert DomsOf(s) == {} && RngsOf(s) == {};
      SetWeightEmpty();
    }
  }

  /** c is what combining the collection types k gives: either k itself, or lighter. */
  ghost predicate Lighter(c: set<Type>, k: set<Type>) {
    if |k| <= 1 then c == k else SetWeight(c) < SetWeight(k)
  }

  lemma {:induction false} CombineSetsWeight(s: set<Type>)
    requires forall t :: t in s ==> t.SetOf?
    ensures Lighter(CombineSetTypes(s), s)
  {
    ElemsWeight(s);
    assert SetElems(s) == ElemsOf(s);
    SetWeightSingleton(SetOf(Union(SetElems(s))));
    UnionWeight(SetElems(s));
  }

  lemma {:induction false} CombineSeqsWeight(s: set<Type>)
    requires forall t :: t in s ==> t.SeqOf?
    ensures Lighter(CombineSeqTypes(s), s)
  {
    ElemsWeight(s);
    assert SeqElems(s) == ElemsOf(s);
    SetWeightSingleton(SeqOf(Union(SeqElems(s))));
    UnionWeight(SeqElems(s));
  }

  lemma {:induction false} CombineMapsWeight(s: set<Type>)
    requires forall t :: t in s ==> t.MapOf?
    ensures Lighter(CombineGenMapTypes(s), s)
  {
    hide SumMap;
    MapPartsWeight(s);
    assert MapDoms(s) == DomsOf(s) && MapRngs(s) == RngsOf(s);
    SetWeightSingleton(MapOf(Union(MapDoms(s)), Union(MapRngs(s))));
    UnionWeight(MapDoms(s));
    UnionWeight(MapRngs(s));
  }

  lemma {:induction false} CombineInjMapsWeight(s: set<Type>)
    requires forall t :: t in s ==> t.InjMapOf?
    ensures Lighter(CombineInjMapTypes(s), s)
  {
    hide SumMap;
    MapPartsWeight(s);
    assert InjMapDoms(s) == DomsOf(s) && InjMapRngs(s) == RngsOf(s);
    SetWeightSingleton(InjMapOf(Union(InjMapDoms(s)), Union(InjMapRngs(s))));
    UnionWeight(InjMapDoms(s));
    UnionWeight(InjMapRngs(s));
  }

  lemma {:induction false} UnionWeight(s: set<Type>)
    ensures Weight(Union(s)) == 1 + SetWeight(s)
  {
  }

  ghost predicate AtMostOneOfEach(s: set<Type>) {
    |SetTypes(s)| <= 1 && |SeqTypes(s)| <= 1 && |MapTypes(s)| <= 1 && |InjMapTypes(s)| <= 1
  }

  lemma {:induction false} PartitionWeight(s: set<Type>)
    ensures SetWeight(s) == SetWeight(Others(s)) + SetWeight(SetTypes(s)) + SetWeight(SeqTypes(s))
                            + SetWeight(MapTypes(s)) + SetWeight(InjMapTypes(s))
  {
    hide SumMap, SetWeight;
    SetWeightUnion(Others(s), SetTypes(s));
    SetWeightUnion(Others(s) + SetTypes(s), SeqTypes(s));
    SetWeightUnion(Others(s) + SetTypes(s) + SeqTypes(s), MapTypes(s));
    SetWeightUnion(Others(s) + SetTypes(s) + SeqTypes(s) + MapTypes(s), InjMapTypes(s));
    assert Others(s) + SetTypes(s) + SeqTypes(s) + MapTypes(s) + InjMapTypes(s) == s;
  }

  lemma {:induction false} OptimizeUnmerged(s: set<Type>)
    requires AtMostOneOfEach(s)
    ensures OptimizeType(s) == s
  {
  }

  lemma {:induction false} OptimizeWeight(s: set<Type>)
    ensures SetWeight(OptimizeType(s)) <= SetWeight(s)
    ensures SetWeight(OptimizeType(s)) == SetWeight(s) ==> AtMostOneOfEach(s) && OptimizeType(s) == s
  {
    var o, a, b := Others(s), CombineSetTypes(SetTypes(s)), CombineSeqTypes(SeqTypes(s));
    var c, d := CombineGenMapTypes(MapTypes(s)), CombineInjMapTypes(InjMapTypes(s));
    SetWeightUnion(o, a);
    SetWeightUnion(o + a, b);
    SetWeightUnion(o + a + b, c);
    SetWeightUnion(o + a + b + c, d);
    CombineSetsWeight(SetTypes(s));
    CombineSeqsWeight(SeqTypes(s));
    CombineMapsWeight(MapTypes(s));
    CombineInjMapsWeight(InjMapTypes(s));
    PartitionWeight(s);
    if AtMostOneOfEach(s) { OptimizeUnmerged(s); }
  }

  /** The union case on its own: the members' cleaned forms are already known not to add weight. */
  lemma {:induction false} UnionShrinks(m: map<Type, set<Type>>)
    requires Shrinks(m)
    ensures SetWeight(CleanMembers(m)) <= SetWeight(m.Keys)
    ensures SetWeight(CleanMembers(m)) == SetWeight(m.Keys) ==>
              CleanMembers(m) == m.Keys && DropEmpties(m.Keys) == m.Keys && AtMostOneOfEach(m.Keys) && Singletons(m)
  {
    FlattenWeight(m);
    DropEmptiesWeight(Flatten(m));
    OptimizeWeight(DropEmpties(Flatten(m)));
  }

  lemma {:induction false} CleanUnionWeight(t: Type)
    requires t.Union?
    ensures SetWeight(CleanAux(t)) <= SetWeight(t.members)
    ensures SetWeight(CleanAux(t)) == SetWeight(t.members) ==>
              CleanAux(t) == t.members && DropEmpties(t.members) == t.members && AtMostOneOfEach(t.members)
              && Singletons(CleanEach(t))
    decreases t, 0
  {
    hide CleanMembers, DropEmpties, SumMap;
    var m := CleanEach(t);
    forall x | x in m ensures SetWeight(m[x]) <= Weight(x) && (SetWeight(m[x]) == Weight(x) ==> m[x] == {x}) {
      CleanAuxWeight(x);
    }
    UnionShrinks(m);
  }

  lemma {:induction false} CleanAllWeight(ts: seq<Type>)
    ensures SeqWeight(CleanAll(ts)) <= SeqWeight(ts)
    ensures SeqWeight(CleanAll(ts)) == SeqWeight(ts) ==> CleanAll(ts) == ts
    decreases ts, 0
  {
    var us := CleanAll(ts);
    forall i | 0 <= i < |ts|
      ensures Weight(us[i]) <= Weight(ts[i]) && (Weight(us[i]) == Weight(ts[i]) ==> us[i] == ts[i])
    {
      CleanWeight(ts[i]);
    }
    SeqWeightMono(us, ts);
  }

  lemma {:induction false} CleanNodeWeight(t: Type) returns (u: Type)
    requires !t.Union?
    ensures CleanAux(t) == {u}
    ensures Weight(u) <= Weight(t)
    ensures Weight(u) == Weight(t) ==> u == t
    decreases t, 1
  {
    hide CleanMembers, CleanEach, Wrap, SumMap;
    match t
    case Composite(g, fs) =>
      CleanAllWeight(fs);
      u := Composite(g, CleanAll(fs));
    case Product(ps) =>
      CleanAllWeight(ps);
      u := Product(CleanAll(ps));
    case Inv(n, s) => CleanWeight(s); u := Inv(n, Clean(s));
    case SetOf(_) => u := CleanCollectionWeight(t);
    case SeqOf(_) => u := CleanCollectionWeight(t);
    case MapOf(_, _) => u := CleanCollectionWeight(t);
    case InjMapOf(_, _) => u := CleanCollectionWeight(t);
    case _ => u := t;
  }

  lemma {:induction false} CleanCollectionWeight(t: Type) returns (u: Type)
    requires IsCollection(t)
    ensures CleanAux(t) == {u}
    ensures Weight(u) <= Weight(t)
    ensures Weight(u) == Weight(t) ==> u == t
    decreases t, 0
  {
    hide CleanMembers, CleanEach, Wrap, SumMap;
    match t
    case SetOf(e) => CleanWeight(e); u := SetOf(Clean(e));
    case SeqOf(e) => CleanWeight(e); u := SeqOf(Clean(e));
    case MapOf(d, r) => CleanWeight(d); CleanWeight(r); u := MapOf(Clean(d), Clean(r));
    case InjMapOf(d, r) => CleanWeight(d); CleanWeight(r); u := InjMapOf(Clean(d), Clean(r));
  }

  lemma {:induction false} CleanAuxWeight(t: Type)
    ensures SetWeight(CleanAux(t)) <= Weight(t)
    ensures SetWeight(CleanAux(t)) == Weight(t) ==> CleanAux(t) == {t} && !t.Union?
    decreases t, 2
  {
    if t.Union? {
      CleanUnionWeight(t);
      UnionWeight(t.members);
    } else {
      var u := CleanNodeWeight(t);
      SetWeightSingleton(u);
    }
  }

  /** One clean-and-flatten never adds weight; if it keeps the weight it keeps the type. */
  lemma {:induction false} CleanWeight(t: Type)
    ensures Weight(Clean(t)) <= Weight(t)
    ensures Weight(Clean(t)) == Weight(t) ==> Clean(t) == t
    decreases t, 2
  {
    WrapWeight(CleanAux(t));
    if t.Union? {
      CleanUnionWeight(t);
      UnionWeight(t.members);
      UnionWeight(CleanAux(t));
    } else {
      var u := CleanNodeWeight(t);
    }
  }

  lemma {:induction false} RemoveInvAllWeight(ts: seq<Type>)
    ensures SeqWeight(RemoveInvAll(ts)) <= SeqWeight(ts)
    ensures SeqWeight(RemoveInvAll(ts)) == SeqWeight(ts) ==> RemoveInvAll(ts) == ts
    decreases ts, 0
  {
    var us := RemoveInvAll(ts);
    forall i | 0 <= i < |ts|
      ensures Weight(us[i]) <= Weight(ts[i]) && (Weight(us[i]) == Weight(ts[i]) ==> us[i] == ts[i])
    {
      RemoveInvWeight(ts[i]);
    }
    SeqWeightMono(us, ts);
  }

  /** The map view of RemoveInvEach, so that FlattenWeight applies. */
  function RemoveInvImage(ts: set<Type>): map<Type, set<Type>> {
    map m | m in ts :: {RemoveInv(m)}
  }

  lemma {:induction false} RemoveInvEachIsFlat(t: Type)
    requires t.Union?
    ensures RemoveInvEach(t) == Flatten(RemoveInvImage(t.members))
  {
    var f := RemoveInvImage(t.members);
    forall u | u in RemoveInvEach(t) ensures u in Flatten(f) {
      var m :| m in t.members && u == RemoveInv(m);
      assert m in f && u in f[m];
    }
  }

  lemma {:induction false} RemoveInvUnionWeight(t: Type)
    requires t.Union?
    ensures SetWeight(RemoveInvEach(t)) <= SetWeight(t.members)
    ensures SetWeight(RemoveInvEach(t)) == SetWeight(t.members) ==>
              RemoveInvEach(t) == t.members && Singletons(RemoveInvImage(t.members))
    decreases t, 0
  {
    hide SetWeight, Flatten, Wrap;
    var f := RemoveInvImage(t.members);
    forall m | m in f ensures SetWeight(f[m]) <= Weight(m) && (SetWeight(f[m]) == Weight(m) ==> f[m] == {m}) {
      RemoveInvWeight(m);
      SetWeightSingleton(RemoveInv(m));
    }
    FlattenWeight(f);
    RemoveInvEachIsFlat(t);
    assert f.Keys == t.members;
  }

  lemma {:induction false} RemoveInvWeight(t: Type)
    ensures Weight(RemoveInv(t)) <= Weight(t)
    ensures Weight(RemoveInv(t)) == Weight(t) ==> RemoveInv(t) == t
    decreases t, 2
  {
    hide Wrap, SumMap, Flatten, SetWeight, RemoveInvEach;
    match t
    case Inv(_, s) => RemoveInvWeight(s);
    case Union(ts) =>
      RemoveInvUnionWeight(t);
      WrapWeight(RemoveInvEach(t));
      UnionWeight(ts);
    case Product(ps) => RemoveInvAllWeight(ps);
    case Fn(_, ps, r) => RemoveInvAllWeight(ps); RemoveInvWeight(r);
    case MapOf(_, _) => RemoveInvMapWeight(t);
    case InjMapOf(_, _) => RemoveInvMapWeight(t);
    case EmptyMap(_, _) => RemoveInvMapWeight(t);
    case SetOf(_) => RemoveInvElemWeight(t);
    case EmptySet(_) => RemoveInvElemWeight(t);
    case SeqOf(_) => RemoveInvElemWeight(t);
    case EmptySeq(_) => RemoveInvElemWeight(t);
    case _ =>
  }

  lemma {:induction false} RemoveInvElemWeight(t: Type)
    requires t.SetOf? || t.EmptySet? || t.SeqOf? || t.EmptySeq?
    ensures Weight(RemoveInv(t)) <= Weight(t)
    ensures Weight(RemoveInv(t)) == Weight(t) ==> RemoveInv(t) == t
    decreases t, 1
  {
    hide Wrap, SumMap, RemoveInvEach;
    RemoveInvWeight(t.elem);
  }

  lemma {:induction false} RemoveInvMapWeight(t: Type)
    requires t.MapOf? || t.InjMapOf? || t.EmptyMap?
    ensures Weight(RemoveInv(t)) <= Weight(t)
    ensures Weight(RemoveInv(t)) == Weight(t) ==> RemoveInv(t) == t
    decreases t, 1
  {
    hide Wrap, SumMap, RemoveInvEach;
    RemoveInvWeight(t.dom);
    RemoveInvWeight(t.rng);
  }

  /** The measure of the repeat-until-stable loop. */
  lemma {:induction false} PassShrinks(t: Type)
    ensures Pass(t) == t || Weight(Pass(t)) < Weight(t)
    ensures Pass(t) == t <==> Clean(t) == t && RemoveInv(t) == t
  {
    CleanWeight(t);
    RemoveInvWeight(Clean(t));
  }
}
