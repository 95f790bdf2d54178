/**
 What normalising does to the meaning of a type: it never loses a value, and it
 gains none unless two collection types of one kind are merged.
 */
module TypeMeaning {
  import opened VdmValues
  import opened TypeReps
  import opened TypeNormaliser

  ghost predicate InSome(v: Value, s: set<Type>, I: Interp) {
    exists u :: u in s && In(v, u, I)
  }

  lemma {:induction false} WrapMeaning(s: set<Type>, v: Value, I: Interp)
    ensures In(v, Wrap(s), I) <==> InSome(v, s, I)
  {
  }

  lemma {:induction false} FlattenMeaning(m: map<Type, set<Type>>, v: Value, I: Interp)
    ensures InSome(v, Flatten(m), I) <==> exists t :: t in m && InSome(v, m[t], I)
  {
    if t :| t in m && InSome(v, m[t], I) {
      var u :| u in m[t] && In(v, u, I);
      assert u in Flatten(m);
    }
  }

  lemma {:induction false} DropEmptiesMeaning(s: set<Type>, v: Value, I: Interp)
    ensures InSome(v, DropEmpties(s), I) <==> InSome(v, s, I)
  {
    if u :| u in s && In(v, u, I) && Absorbed(u, s) {
      var w := match u
        case EmptySet(e) => SetOf(e)
        case EmptySeq(e) => SeqOf(e)
        case EmptyMap(d, r) => if MapOf(d, r) in s then MapOf(d, r) else InjMapOf(d, r);
      assert w in s && !Absorbed(w, s) && In(v, w, I);
      assert w in DropEmpties(s);
    } else if u :| u in s && In(v, u, I) {
      assert u in DropEmpties(s);
    }
  }

  lemma {:induction false} InUnion(m: Type, ts: set<Type>, v: Value, I: Interp)
    requires m in ts && In(v, m, I)
    ensures In(v, Union(ts), I)
  {
  }

  /** Merging k sets of one kind into one set of a union keeps every value. */
  lemma {:induction false} CombineWidens(u: Type, s: set<Type>, v: Value, I: Interp) returns (w: Type)
    requires u in s && IsCollection(u) && In(v, u, I)
    ensures w in OptimizeType(s) && In(v, w, I)
  {
    match u
    case SetOf(e) =>
      w := if |SetTypes(s)| <= 1 then u else SetOf(Union(SetElems(SetTypes(s))));
      assert u in SetTypes(s) && e in SetElems(SetTypes(s));
    case SeqOf(e) =>
      w := if |SeqTypes(s)| <= 1 then u else SeqOf(Union(SeqElems(SeqTypes(s))));
      assert u in SeqTypes(s) && e in SeqElems(SeqTypes(s));
    case MapOf(d, r) =>
      w := if |MapTypes(s)| <= 1 then u else MapOf(Union(MapDoms(MapTypes(s))), Union(MapRngs(MapTypes(s))));
      assert u in MapTypes(s);
      forall k | k in v.entries { InUnion(d, MapDoms(MapTypes(s)), k, I); }
      forall k | k in v.entries { InUnion(r, MapRngs(MapTypes(s)), v.entries[k], I); }
    case InjMapOf(d, r) =>
      w := if |InjMapTypes(s)| <= 1 then u
           else InjMapOf(Union(InjMapDoms(InjMapTypes(s))), Union(InjMapRngs(InjMapTypes(s))));
      assert u in InjMapTypes(s);
      forall k | k in v.entries { InUnion(d, InjMapDoms(InjMapTypes(s)), k, I); }
      forall k | k in v.entries { InUnion(r, InjMapRngs(InjMapTypes(s)), v.entries[k], I); }
  }

  lemma {:induction false} OptimizeMeaning(s: set<Type>, v: Value, I: Interp)
    ensures InSome(v, s, I) ==> InSome(v, OptimizeType(s), I)
    ensures AtMostOneOfEach(s) ==> (InSome(v, OptimizeType(s), I) <==> InSome(v, s, I))
  {
    if u :| u in s && In(v, u, I) {
      if IsCollection(u) {
        var w := CombineWidens(u, s, v, I);
      } else {
        assert u in Others(s);
      }
    }
    if AtMostOneOfEach(s) { OptimizeUnmerged(s); }
  }

  /** No union hands OptimizeType two collection types of the same kind. */
  ghost predicate NothingMerged(t: Type)
    decreases t
  {
    match t
    case SetOf(e) => NothingMerged(e)
    case SeqOf(e) => NothingMerged(e)
    case MapOf(d, r) => NothingMerged(d) && NothingMerged(r)
    case InjMapOf(d, r) => NothingMerged(d) && NothingMerged(r)
    case Inv(_, s) => NothingMerged(s)
    case Product(ps) => forall p :: p in ps ==> NothingMerged(p)
    case Composite(_, fs) => forall f :: f in fs ==> NothingMerged(f)
    case Union(ts) =>
      AtMostOneOfEach(DropEmpties(Flatten(CleanEach(t)))) && forall m :: m in ts ==> NothingMerged(m)
    case _ => true
  }

  /** How one type relates to what it was normalised to. */
  ghost predicate Covers(wide: Type, t: Type, exact: bool, v: Value, I: Interp) {
    (In(v, t, I) ==> In(v, wide, I)) && (exact ==> (In(v, wide, I) ==> In(v, t, I)))
  }

  lemma {:induction false} CleanSetCovers(t: Type, v: Value, I: Interp)
    requires t.SetOf? || t.SeqOf?
    ensures exists u :: CleanAux(t) == {u} && Covers(u, t, NothingMerged(t), v, I)
    decreases t, 0
  {
    hide Clean, CleanMembers;
    match t
    case SetOf(e) =>
      if v.SetV? { forall x | x in v.elems { CleanCovers(e, x, I); } }
      assert CleanAux(t) == {SetOf(Clean(e))};
    case SeqOf(e) =>
      if v.SeqV? { forall x | x in v.items { CleanCovers(e, x, I); } }
      assert CleanAux(t) == {SeqOf(Clean(e))};
  }

  lemma {:induction false} CleanMapCovers(t: Type, v: Value, I: Interp)
    requires t.MapOf? || t.InjMapOf?
    ensures exists u :: CleanAux(t) == {u} && Covers(u, t, NothingMerged(t), v, I)
    decreases t, 0
  {
    hide Clean, CleanMembers;
    var d, r := t.dom, t.rng;
    var u := if t.MapOf? then MapOf(Clean(d), Clean(r)) else InjMapOf(Clean(d), Clean(r));
    assert CleanAux(t) == {u};
    hide CleanAux;
    if v.MapV? {
      forall k | k in v.entries { CleanCovers(d, k, I); }
      forall k | k in v.entries { CleanCovers(r, v.entries[k], I); }
    }
    assert Covers(u, t, NothingMerged(t), v, I);
  }

  lemma {:induction false} CleanNodeCovers(t: Type, v: Value, I: Interp)
    requires !t.Union?
    ensures exists u :: CleanAux(t) == {u} && Covers(u, t, NothingMerged(t), v, I)
    decreases t, 1
  {
    hide Clean, CleanMembers;
    assert Covers(t, t, NothingMerged(t), v, I);
    match t
    case SetOf(_) => CleanSetCovers(t, v, I);
    case SeqOf(_) => CleanSetCovers(t, v, I);
    case MapOf(_, _) => CleanMapCovers(t, v, I);
    case InjMapOf(_, _) => CleanMapCovers(t, v, I);
    case Product(_) => CleanListCovers(t, v, I);
    case Composite(_, _) => CleanListCovers(t, v, I);
    case Inv(n, s) =>
      CleanCovers(s, v, I);
      assert CleanAux(t) == {Inv(n, Clean(s))};
    case _ =>
  }

  lemma {:induction false} CleanListCovers(t: Type, v: Value, I: Interp)
    requires t.Product? || t.Composite?
    ensures exists u :: CleanAux(t) == {u} && Covers(u, t, NothingMerged(t), v, I)
    decreases t, 0
  {
    hide Clean, CleanMembers;
    match t
    case Product(ps) =>
      if v.TupleV? && |v.comps| == |ps| {
        forall i | 0 <= i < |ps| { CleanCovers(ps[i], v.comps[i], I); }
      }
      assert CleanAux(t) == {Product(CleanAll(ps))};
    case Composite(g, fs) =>
      if v.RecV? && |v.comps| == |fs| {
        forall i | 0 <= i < |fs| { CleanCovers(fs[i], v.comps[i], I); }
      }
      assert CleanAux(t) == {Composite(g, CleanAll(fs))};
  }

  lemma {:induction false} CleanAuxCovers(t: Type, v: Value, I: Interp)
    ensures In(v, t, I) ==> InSome(v, CleanAux(t), I)
    ensures NothingMerged(t) && InSome(v, CleanAux(t), I) ==> In(v, t, I)
    decreases t, 2
  {
    hide OptimizeType, DropEmpties, Flatten;
    if t.Union? {
      var m := CleanEach(t);
      forall x | x in t.members { CleanAuxCovers(x, v, I); }
      FlattenMeaning(m, v, I);
      DropEmptiesMeaning(Flatten(m), v, I);
      OptimizeMeaning(DropEmpties(Flatten(m)), v, I);
      assert CleanAux(t) == CleanMembers(m);
    } else {
      CleanNodeCovers(t, v, I);
    }
  }

  /** Clean-and-flatten only widens, and is exact wherever nothing is merged. */
  lemma {:induction false} CleanCovers(t: Type, v: Value, I: Interp)
    ensures In(v, t, I) ==> In(v, Clean(t), I)
    ensures NothingMerged(t) ==> (In(v, Clean(t), I) <==> In(v, t, I))
    decreases t, 3
  {
    CleanAuxCovers(t, v, I);
    WrapMeaning(CleanAux(t), v, I);
  }

  /** Removing invariants only widens, where no function type is looked into. */
  lemma {:induction false} RemoveInvCovers(t: Type, v: Value, I: Interp)
    requires Free(NoFunctions, t)
    ensures In(v, t, I) ==> In(v, RemoveInv(t), I)
    decreases t
  {
    if In(v, t, I) {
      match t
      case Inv(_, s) => RemoveInvCovers(s, v, I);
      case Union(ts) =>
        var m :| m in ts && In(v, m, I);
        RemoveInvCovers(m, v, I);
        assert RemoveInv(m) in RemoveInvEach(t);
        WrapMeaning(RemoveInvEach(t), v, I);
      case SetOf(e) => forall x | x in v.elems { RemoveInvCovers(e, x, I); }
      case SeqOf(e) => forall x | x in v.items { RemoveInvCovers(e, x, I); }
      case MapOf(d, r) =>
        forall k | k in v.entries { RemoveInvCovers(d, k, I); }
        forall k | k in v.entries { RemoveInvCovers(r, v.entries[k], I); }
      case InjMapOf(d, r) =>
        forall k | k in v.entries { RemoveInvCovers(d, k, I); }
        forall k | k in v.entries { RemoveInvCovers(r, v.entries[k], I); }
      case Product(ps) => forall i | 0 <= i < |ps| { RemoveInvCovers(ps[i], v.comps[i], I); }
      case _ =>
    }
  }

  /** Every value satisfies every invariant. */
  ghost predicate AllHold(I: Interp) { forall n, v :: I.holds(n, v) }

  ghost predicate Equal(a: Type, b: Type, I: Interp) { forall v :: In(v, a, I) <==> In(v, b, I) }

  /** What function types mean depends only on what their parameter and result types mean. */
  ghost predicate Extensional(I: Interp) {
    forall k, ps, qs, r, s, v :: |ps| == |qs| && (forall i :: 0 <= i < |ps| ==> Equal(ps[i], qs[i], I))
        && Equal(r, s, I)
      ==> (I.fn(Fn(k, ps, r), v) <==> I.fn(Fn(k, qs, s), v))
  }

  /** Removing invariants does no more than that: where all invariants hold it changes nothing. */
  lemma {:induction false} RemoveInvExact(t: Type, v: Value, I: Interp)
    requires (Free(NoFunctions, t) || Extensional(I)) && AllHold(I)
    ensures In(v, RemoveInv(t), I) <==> In(v, t, I)
    decreases t
  {
    hide Extensional;
    match t
    case Inv(_, s) => RemoveInvExact(s, v, I);
    case Union(ts) =>
      forall m | m in ts { RemoveInvExact(m, v, I); }
      RemoveInvUnionExact(t, v, I);
    case SetOf(e) => if v.SetV? { forall x | x in v.elems { RemoveInvExact(e, x, I); } }
    case SeqOf(e) => if v.SeqV? { forall x | x in v.items { RemoveInvExact(e, x, I); } }
    case MapOf(_, _) => RemoveInvMapExact(t, v, I);
    case InjMapOf(_, _) => RemoveInvMapExact(t, v, I);
    case Product(ps) =>
      if v.TupleV? && |v.comps| == |ps| { forall i | 0 <= i < |ps| { RemoveInvExact(ps[i], v.comps[i], I); } }
    case Fn(_, _, _) => RemoveInvFnExact(t, v, I);
    case _ =>
  }

  lemma {:induction false} RemoveInvFnExact(t: Type, v: Value, I: Interp)
    requires t.Fn? && Extensional(I) && AllHold(I)
    ensures In(v, RemoveInv(t), I) <==> In(v, t, I)
    decreases t, 0
  {
    var qs, s := RemoveInvAll(t.args), RemoveInv(t.result);
    forall i | 0 <= i < |t.args| ensures Equal(t.args[i], qs[i], I) {
      forall x { RemoveInvExact(t.args[i], x, I); }
    }
    assert Equal(t.result, s, I) by { forall x { RemoveInvExact(t.result, x, I); } }
    hide Equal;
    assert RemoveInv(t) == Fn(t.fnKind, qs, s);
  }

  /** Map types are equal in meaning if their domains and ranges are, on the entries at hand. */
  lemma {:induction false} MapExact(t: Type, u: Type, v: Value, I: Interp)
    requires (t.MapOf? && u.MapOf?) || (t.InjMapOf? && u.InjMapOf?)
    requires v.MapV? ==> forall k :: k in v.entries ==> (In(k, u.dom, I) <==> In(k, t.dom, I))
    requires v.MapV? ==> forall k :: k in v.entries ==> (In(v.entries[k], u.rng, I) <==> In(v.entries[k], t.rng, I))
    ensures In(v, u, I) <==> In(v, t, I)
  {
  }

  lemma {:induction false} RemoveInvMapExact(t: Type, v: Value, I: Interp)
    requires (Free(NoFunctions, t) || Extensional(I)) && AllHold(I) && (t.MapOf? || t.InjMapOf?)
    ensures In(v, RemoveInv(t), I) <==> In(v, t, I)
    decreases t, 0
  {
    hide Extensional, AllHold, In;
    if v.MapV? {
      forall k | k in v.entries { RemoveInvExact(t.dom, k, I); }
      forall k | k in v.entries { RemoveInvExact(t.rng, v.entries[k], I); }
    }
    MapExact(t, RemoveInv(t), v, I);
  }

  lemma {:induction false} RemoveInvUnionExact(t: Type, v: Value, I: Interp)
    requires t.Union? && forall m :: m in t.members ==> (In(v, RemoveInv(m), I) <==> In(v, m, I))
    ensures In(v, RemoveInv(t), I) <==> In(v, t, I)
  {
    forall m | m in t.members ensures RemoveInv(m) in RemoveInvEach(t) {}
    WrapMeaning(RemoveInvEach(t), v, I);
  }
}
