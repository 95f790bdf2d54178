/**
 The stable types are exactly the normal forms, the collection classifiers do
 not notice normalisation, and FindSetElemType covers what it should.
 */
module TypeNormalForm {
  import opened VdmValues
  import opened TypeReps
  import opened TypeNormaliser
  import opened TypeMeaning

  // ----- Normal forms -----

  /** No union inside a union, no singleton union, no empty-collection type beside
      its collection, and at most one collection type of each kind. */
  ghost predicate Flat(t: Type)
    decreases t
  {
    match t
    case SetOf(e) => Flat(e)
    case SeqOf(e) => Flat(e)
    case MapOf(d, r) => Flat(d) && Flat(r)
    case InjMapOf(d, r) => Flat(d) && Flat(r)
    case Inv(_, s) => Flat(s)
    case Product(ps) => forall p :: p in ps ==> Flat(p)
    case Composite(_, fs) => forall f :: f in fs ==> Flat(f)
    case Union(ts) =>
      |ts| != 1 && AtMostOneOfEach(ts) && forall m :: m in ts ==> !m.Union? && !Absorbed(m, ts) && Flat(m)
    case _ => true
  }

  /** No invariant and no singleton union outside composites. */
  ghost predicate Bare(t: Type)
    decreases t
  {
    match t
    case Inv(_, _) => false
    case Union(ts) => |ts| != 1 && forall m :: m in ts ==> Bare(m)
    case SetOf(e) => Bare(e)
    case EmptySet(e) => Bare(e)
    case SeqOf(e) => Bare(e)
    case EmptySeq(e) => Bare(e)
    case MapOf(d, r) => Bare(d) && Bare(r)
    case InjMapOf(d, r) => Bare(d) && Bare(r)
    case EmptyMap(d, r) => Bare(d) && Bare(r)
    case Product(ps) => forall p :: p in ps ==> Bare(p)
    case Fn(_, ps, r) => (forall p :: p in ps ==> Bare(p)) && Bare(r)
    case _ => true
  }

  lemma {:induction false} FlattenSingletons(m: map<Type, set<Type>>)
    requires Singletons(m)
    ensures Flatten(m) == m.Keys
  {
    forall t | t in m ensures t in Flatten(m) { assert t in m[t]; }
  }

  lemma {:induction false} FlatIsFixed(t: Type)
    requires Flat(t)
    ensures Clean(t) == t && (!t.Union? ==> CleanAux(t) == {t})
    decreases t
  {
    hide Flatten, OptimizeType;
    match t
    case Union(ts) =>
      var m := CleanEach(t);
      forall x | x in m ensures m[x] == {x} { FlatIsFixed(x); }
      FlattenSingletons(m);
      assert DropEmpties(ts) == ts;
      OptimizeUnmerged(ts);
      assert CleanAux(t) == CleanMembers(m);
    case SetOf(e) => FlatIsFixed(e);
    case SeqOf(e) => FlatIsFixed(e);
    case MapOf(d, r) => FlatIsFixed(d); FlatIsFixed(r);
    case InjMapOf(d, r) => FlatIsFixed(d); FlatIsFixed(r);
    case Inv(_, s) => FlatIsFixed(s);
    case Product(ps) =>
      forall p | p in ps { FlatIsFixed(p); }
      assert CleanAll(ps) == ps;
    case Composite(_, fs) =>
      forall f | f in fs { FlatIsFixed(f); }
      assert CleanAll(fs) == fs;
    case _ =>
  }

  lemma {:induction false} FixedUnionMembers(t: Type)
    requires t.Union? && Clean(t) == t
    ensures |t.members| != 1 && AtMostOneOfEach(t.members) && DropEmpties(t.members) == t.members
    ensures forall m :: m in t.members ==> !m.Union? && Clean(m) == m
  {
    hide CleanMembers, SumMap;
    CleanUnionWeight(t);
    WrapWeight(CleanAux(t));
    UnionWeight(t.members);
    assert CleanAux(t) == t.members;
    forall m | m in t.members ensures !m.Union? && Clean(m) == m {
      assert CleanEach(t)[m] == {m};
      CleanAuxWeight(m);
      SetWeightSingleton(m);
    }
  }

  lemma {:induction false} FixedIsFlat(t: Type)
    requires Clean(t) == t
    ensures Flat(t)
    decreases t
  {
    hide CleanMembers, CleanEach;
    match t
    case Union(ts) =>
      FixedUnionMembers(t);
      forall m | m in ts ensures !Absorbed(m, ts) && Flat(m) {
        assert m in DropEmpties(ts);
        FixedIsFlat(m);
      }
    case SetOf(e) => assert CleanAux(t) == {SetOf(Clean(e))}; FixedIsFlat(e);
    case SeqOf(e) => assert CleanAux(t) == {SeqOf(Clean(e))}; FixedIsFlat(e);
    case MapOf(d, r) => assert CleanAux(t) == {MapOf(Clean(d), Clean(r))}; FixedIsFlat(d); FixedIsFlat(r);
    case InjMapOf(d, r) => assert CleanAux(t) == {InjMapOf(Clean(d), Clean(r))}; FixedIsFlat(d); FixedIsFlat(r);
    case Inv(n, s) => assert CleanAux(t) == {Inv(n, Clean(s))}; FixedIsFlat(s);
    case Product(ps) =>
      assert CleanAux(t) == {Product(CleanAll(ps))};
      forall i | 0 <= i < |ps| ensures Flat(ps[i]) { FixedIsFlat(ps[i]); }
    case Composite(g, fs) =>
      assert CleanAux(t) == {Composite(g, CleanAll(fs))};
      forall i | 0 <= i < |fs| ensures Flat(fs[i]) { FixedIsFlat(fs[i]); }
    case _ =>
  }

  lemma {:induction false} BareIsFixed(t: Type)
    requires Bare(t)
    ensures RemoveInv(t) == t
    decreases t
  {
    match t
    case Union(ts) =>
      forall m | m in ts ensures RemoveInv(m) == m { BareIsFixed(m); }
      assert RemoveInvEach(t) == ts by {
        forall m | m in ts ensures m in RemoveInvEach(t) { assert m == RemoveInv(m); }
      }
    case SetOf(e) => BareIsFixed(e);
    case EmptySet(e) => BareIsFixed(e);
    case SeqOf(e) => BareIsFixed(e);
    case EmptySeq(e) => BareIsFixed(e);
    case MapOf(d, r) => BareIsFixed(d); BareIsFixed(r);
    case InjMapOf(d, r) => BareIsFixed(d); BareIsFixed(r);
    case EmptyMap(d, r) => BareIsFixed(d); BareIsFixed(r);
    case Product(ps) =>
      forall p | p in ps { BareIsFixed(p); }
      assert RemoveInvAll(ps) == ps;
    case Fn(_, ps, r) =>
      forall p | p in ps { BareIsFixed(p); }
      assert RemoveInvAll(ps) == ps;
      BareIsFixed(r);
    case _ =>
  }

  lemma {:induction false} UninvertedUnionMembers(t: Type)
    requires t.Union? && RemoveInv(t) == t
    ensures |t.members| != 1 && forall m :: m in t.members ==> RemoveInv(m) == m
  {
    hide SetWeight, Flatten, Wrap, RemoveInvEach, RemoveInvImage;
    RemoveInvUnionWeight(t);
    WrapWeight(RemoveInvEach(t));
    UnionWeight(t.members);
    assert RemoveInvEach(t) == t.members;
    UnchangedImage(t.members);
  }

  lemma {:induction false} UnchangedImage(ts: set<Type>)
    requires Singletons(RemoveInvImage(ts))
    ensures forall m :: m in ts ==> RemoveInv(m) == m
  {
    hide RemoveInv;
    forall m | m in ts ensures RemoveInv(m) == m {
      assert RemoveInvImage(ts)[m] == {m};
      assert RemoveInv(m) in {m};
    }
  }

  lemma {:induction false} FixedIsBare(t: Type)
    requires RemoveInv(t) == t
    ensures Bare(t)
    decreases t
  {
    hide RemoveInvEach, Wrap;
    match t
    case Inv(_, s) => RemoveInvWeight(s);
    case Union(ts) =>
      UninvertedUnionMembers(t);
      forall m | m in ts { FixedIsBare(m); }
    case SetOf(e) => FixedIsBare(e);
    case EmptySet(e) => FixedIsBare(e);
    case SeqOf(e) => FixedIsBare(e);
    case EmptySeq(e) => FixedIsBare(e);
    case MapOf(d, r) => FixedIsBare(d); FixedIsBare(r);
    case InjMapOf(d, r) => FixedIsBare(d); FixedIsBare(r);
    case EmptyMap(d, r) => FixedIsBare(d); FixedIsBare(r);
    case Product(ps) => forall i | 0 <= i < |ps| ensures Bare(ps[i]) { FixedIsBare(ps[i]); }
    case Fn(_, ps, r) =>
      forall i | 0 <= i < |ps| ensures Bare(ps[i]) { FixedIsBare(ps[i]); }
      FixedIsBare(r);
    case _ =>
  }

  /** What the loop stops at: exactly the flat types without invariants. */
  lemma {:induction false} StableIsNormalForm(t: Type)
    ensures Pass(t) == t <==> Flat(t) && Bare(t)
  {
    PassShrinks(t);
    if Clean(t) == t { FixedIsFlat(t); }
    if RemoveInv(t) == t { FixedIsBare(t); }
    if Flat(t) { FlatIsFixed(t); }
    if Bare(t) { BareIsFixed(t); }
  }

  // ----- Classifiers -----

  datatype Coll = SetK | SeqK | MapK

  predicate HasTag(k: Coll, t: Type) {
    match k
    case SetK => t.SetOf? || t.EmptySet?
    case SeqK => t.SeqOf? || t.EmptySeq?
    case MapK => t.MapOf? || t.InjMapOf? || t.EmptyMap?
  }

  /** IsSetType, IsSeqType, IsMapType: every alternative is such a collection. */
  predicate IsColl(k: Coll, t: Type)
    decreases t
  {
    match t
    case Union(ts) => forall m :: m in ts ==> IsColl(k, m)
    case Inv(_, s) => IsColl(k, s)
    case _ => HasTag(k, t)
  }

  /** IsPosSetType, IsPosSeqType, IsPosMapType: some alternative may be one. */
  predicate IsPosColl(k: Coll, t: Type)
    decreases t
  {
    match t
    case Union(ts) => exists m :: m in ts && IsPosColl(k, m)
    case Inv(_, s) => IsPosColl(k, s)
    case All => true
    case _ => HasTag(k, t)
  }

  ghost predicate AllColl(k: Coll, s: set<Type>) {
    forall u :: u in s ==> IsColl(k, u)
  }

  ghost predicate AnyColl(k: Coll, s: set<Type>) {
    exists u :: u in s && IsPosColl(k, u)
  }

  lemma {:induction false} FlattenClass(k: Coll, m: map<Type, set<Type>>)
    ensures AllColl(k, Flatten(m)) <==> forall t :: t in m ==> AllColl(k, m[t])
    ensures AnyColl(k, Flatten(m)) <==> exists t :: t in m && AnyColl(k, m[t])
  {
    forall t, u | t in m && u in m[t] ensures u in Flatten(m) {}
    if t :| t in m && AnyColl(k, m[t]) {
      var u :| u in m[t] && IsPosColl(k, u);
      assert u in Flatten(m);
    }
  }

  lemma {:induction false} DropEmptiesClass(k: Coll, s: set<Type>)
    ensures AllColl(k, DropEmpties(s)) <==> AllColl(k, s)
    ensures AnyColl(k, DropEmpties(s)) <==> AnyColl(k, s)
  {
    forall u | u in s && u !in DropEmpties(s)
      ensures exists w :: w in DropEmpties(s) && HasTag(k, w) == HasTag(k, u) && IsCollection(w)
                          && !u.Union? && !u.Inv? && !u.All?
    {
      var w := match u
        case EmptySet(e) => SetOf(e)
        case EmptySeq(e) => SeqOf(e)
        case EmptyMap(d, r) => if MapOf(d, r) in s then MapOf(d, r) else InjMapOf(d, r);
      assert w in DropEmpties(s);
    }
  }

  lemma {:induction false} OptimizeClass(k: Coll, s: set<Type>)
    ensures AllColl(k, OptimizeType(s)) <==> AllColl(k, s)
    ensures AnyColl(k, OptimizeType(s)) <==> AnyColl(k, s)
  {
    hide OptimizeType;
    forall u | u in s ensures exists w :: w in OptimizeType(s) && SameClass(k, w, u) {
      var w := Merged(u, s);
      assert SameClass(k, w, u);
    }
    forall w | w in OptimizeType(s) ensures exists u :: u in s && SameClass(k, w, u) {
      var u := Source(w, s);
      assert SameClass(k, w, u);
    }
  }

  ghost predicate SameClass(k: Coll, a: Type, b: Type) {
    IsColl(k, a) == IsColl(k, b) && IsPosColl(k, a) == IsPosColl(k, b)
  }

  lemma {:induction false} Merged(u: Type, s: set<Type>) returns (w: Type)
    requires u in s
    ensures w in OptimizeType(s)
    ensures w == u || (IsCollection(u) && IsCollection(w)
                       && w.SetOf? == u.SetOf? && w.SeqOf? == u.SeqOf? && w.MapOf? == u.MapOf?)
  {
    w := match u
      case SetOf(_) => if |SetTypes(s)| <= 1 then u else SetOf(Union(SetElems(SetTypes(s))))
      case SeqOf(_) => if |SeqTypes(s)| <= 1 then u else SeqOf(Union(SeqElems(SeqTypes(s))))
      case MapOf(_, _) =>
        if |MapTypes(s)| <= 1 then u else MapOf(Union(MapDoms(MapTypes(s))), Union(MapRngs(MapTypes(s))))
      case InjMapOf(_, _) =>
        if |InjMapTypes(s)| <= 1 then u
        else InjMapOf(Union(InjMapDoms(InjMapTypes(s))), Union(InjMapRngs(InjMapTypes(s))))
      case _ => u;
    assert !IsCollection(u) ==> u in Others(s);
    assert u.SetOf? ==> u in SetTypes(s);
    assert u.SeqOf? ==> u in SeqTypes(s);
    assert u.MapOf? ==> u in MapTypes(s);
    assert u.InjMapOf? ==> u in InjMapTypes(s);
  }

  lemma {:induction false} Source(w: Type, s: set<Type>) returns (u: Type)
    requires w in OptimizeType(s)
    ensures u in s
    ensures w == u || (IsCollection(u) && IsCollection(w)
                       && w.SetOf? == u.SetOf? && w.SeqOf? == u.SeqOf? && w.MapOf? == u.MapOf?)
  {
    if w in s {
      u := w;
    } else if w in CombineSetTypes(SetTypes(s)) {
      u :| u in SetTypes(s);
    } else if w in CombineSeqTypes(SeqTypes(s)) {
      u :| u in SeqTypes(s);
    } else if w in CombineGenMapTypes(MapTypes(s)) {
      u :| u in MapTypes(s);
    } else {
      assert w in CombineInjMapTypes(InjMapTypes(s));
      u :| u in InjMapTypes(s);
    }
  }

  lemma {:induction false} UnionClass(k: Coll, t: Type, m: map<Type, set<Type>>)
    requires t.Union? && m == CleanEach(t)
    requires forall x :: x in m ==> AllColl(k, m[x]) == IsColl(k, x) && AnyColl(k, m[x]) == IsPosColl(k, x)
    ensures AllColl(k, CleanAux(t)) == IsColl(k, t) && AnyColl(k, CleanAux(t)) == IsPosColl(k, t)
  {
    hide OptimizeType, DropEmpties, Flatten, AllColl, AnyColl;
    assert CleanAux(t) == CleanMembers(m);
    FlattenClass(k, m);
    DropEmptiesClass(k, Flatten(m));
    OptimizeClass(k, DropEmpties(Flatten(m)));
  }

  lemma {:induction false} OneClass(k: Coll, t: Type)
    ensures AllColl(k, {t}) == IsColl(k, t) && AnyColl(k, {t}) == IsPosColl(k, t)
  {
  }

  lemma {:induction false} CleanAuxClass(k: Coll, t: Type)
    ensures AllColl(k, CleanAux(t)) == IsColl(k, t)
    ensures AnyColl(k, CleanAux(t)) == IsPosColl(k, t)
    decreases t, 0
  {
    if t.Union? {
      var m := CleanEach(t);
      forall x | x in m ensures AllColl(k, m[x]) == IsColl(k, x) && AnyColl(k, m[x]) == IsPosColl(k, x) {
        CleanAuxClass(k, x);
      }
      UnionClass(k, t, m);
    } else {
      hide AllColl, AnyColl, Clean;
      var u := CleanedNode(t);
      OneClass(k, u);
      if t.Inv? { CleanClass(k, t.shape); }
    }
  }

  lemma {:induction false} CleanedNode(t: Type) returns (u: Type)
    requires !t.Union?
    ensures CleanAux(t) == {u}
    ensures if t.Inv? then u == Inv(t.name, Clean(t.shape)) else !u.Union? && !u.Inv? && u.All? == t.All?
    ensures forall k :: HasTag(k, u) == HasTag(k, t)
  {
    hide Clean, CleanMembers;
    u :| u in CleanAux(t);
  }

  lemma {:induction false} CleanClass(k: Coll, t: Type)
    ensures IsColl(k, Clean(t)) == IsColl(k, t)
    ensures IsPosColl(k, Clean(t)) == IsPosColl(k, t)
    decreases t, 1
  {
    hide CleanAux;
    CleanAuxClass(k, t);
  }

  lemma {:induction false} RemoveInvClass(k: Coll, t: Type)
    ensures IsColl(k, RemoveInv(t)) == IsColl(k, t)
    ensures IsPosColl(k, RemoveInv(t)) == IsPosColl(k, t)
    decreases t
  {
    match t
    case Union(ts) =>
      forall m | m in ts { RemoveInvClass(k, m); }
      forall m | m in ts ensures RemoveInv(m) in RemoveInvEach(t) {}
    case Inv(_, s) => RemoveInvClass(k, s);
    case _ =>
  }

  /** The generator's collection tests answer alike before and after normalising. */
  lemma {:induction false} PassKeepsClass(k: Coll, t: Type)
    ensures IsColl(k, Pass(t)) == IsColl(k, t)
    ensures IsPosColl(k, Pass(t)) == IsPosColl(k, t)
  {
    CleanClass(k, t);
    RemoveInvClass(k, Clean(t));
  }

  ghost predicate IsOf(k: Coll, v: Value) {
    match k
    case SetK => v.SetV?
    case SeqK => v.SeqV?
    case MapK => v.MapV?
  }

  function EmptyOf(k: Coll): Value {
    match k
    case SetK => SetV({})
    case SeqK => SeqV([])
    case MapK => MapV(map[])
  }

  /** A type that passes the definite test has no values but such collections. */
  lemma {:induction false} CollsOnly(k: Coll, t: Type, v: Value, I: Interp)
    requires IsColl(k, t) && In(v, t, I)
    ensures IsOf(k, v)
    decreases t
  {
    match t
    case Union(ts) =>
      var m :| m in ts && In(v, m, I);
      CollsOnly(k, m, v, I);
    case Inv(_, s) => CollsOnly(k, s, v, I);
    case _ =>
  }

  /** A type passes the possible test if the empty collection is among its values, and, where all
      alternatives can be told by their tags, also only if any such collection is. */
  lemma {:induction false} PossibleCollsIff(k: Coll, t: Type, v: Value, I: Interp)
    requires AtomsOnly(I)
    ensures IsPosColl(k, t) && AllHold(I) ==> In(EmptyOf(k), t, I)
    ensures ToldInside(t) && In(v, t, I) && IsOf(k, v) ==> IsPosColl(k, t)
  {
    hide In, IsPosColl, AtomsOnly, AllHold, ToldInside;
    if IsPosColl(k, t) && AllHold(I) { EmptyIsPossible(k, t, I); }
    if ToldInside(t) && In(v, t, I) && IsOf(k, v) { OnlyPossible(k, t, v, I); }
  }

  lemma {:induction false} EmptyIsPossible(k: Coll, t: Type, I: Interp)
    requires IsPosColl(k, t) && AllHold(I)
    ensures In(EmptyOf(k), t, I)
    decreases t
  {
    if t.Union? {
      var m :| m in t.members && IsPosColl(k, m);
      EmptyIsPossible(k, m, I);
    } else if t.Inv? {
      EmptyIsPossible(k, t.shape, I);
    }
  }

  lemma {:induction false} OnlyPossible(k: Coll, t: Type, v: Value, I: Interp)
    requires ToldInside(t) && In(v, t, I) && IsOf(k, v) && AtomsOnly(I)
    ensures IsPosColl(k, t)
    decreases t
  {
    if t.Union? {
      var m :| m in t.members && In(v, m, I);
      OnlyPossible(k, m, v, I);
    } else if t.Inv? {
      OnlyPossible(k, t.shape, v, I);
    }
  }

  /** Below unions and invariants there is no type variable, name or function type. */
  ghost predicate ToldInside(t: Type)
    decreases t
  {
    match t
    case Union(ts) => forall m :: m in ts ==> ToldInside(m)
    case Inv(_, s) => ToldInside(s)
    case _ => !t.TypeVar? && !t.Named? && !t.Fn?
  }

  // ----- FindSetElemType -----

  lemma {:induction false} MembersLighter(t: Type)
    requires t.Union?
    ensures forall m :: m in t.members ==> Weight(Clean(m)) < Weight(t)
  {
    hide Clean, Weight;
    forall m | m in t.members ensures Weight(Clean(m)) < Weight(t) {
      CleanWeight(m);
      SetWeightRemove(t.members, m);
      UnionWeight(t.members);
    }
  }

  /** What the alternatives that are set types report. */
  function FoundElems(t: Type): set<Type>
    requires t.Union?
    decreases Weight(t), 0
  {
    MembersLighter(t);
    set m | m in t.members && IsColl(SetK, Clean(m)) :: FindSetElemType(Clean(m))
  }

  /** On types without type names, where CleanFlatType is Clean. */
  function FindSetElemType(t: Type): Type
    decreases Weight(t), 1
  {
    RemoveInvWeight(t);
    var ti := RemoveInv(t);
    match ti
    case All => ti
    case Union(_) => if |FoundElems(ti)| == 0 then All else Wrap(FoundElems(ti))
    case SetOf(e) => Clean(e)
    case EmptySet(e) => Clean(e)
    case Inv(_, s) => FindSetElemType(s)
    case _ => All
  }

  /** Atomic types hold atoms and numbers only. */
  ghost predicate AtomsOnly(I: Interp) {
    forall k, v :: I.basic(k, v) ==> v.Atom? || v.Num?
  }

  /** No alternative whose values cannot be told from its tag, other than ALL. */
  ghost predicate Closed(t: Type) {
    t.Union? ==> forall m :: m in t.members ==> !m.TypeVar? && !m.Named? && !m.Fn?
  }

  ghost predicate CoversElements(t: Type, I: Interp) {
    forall v, x :: In(v, t, I) && v.SetV? && x in v.elems ==> In(x, FindSetElemType(t), I)
  }

  /** x is an element that some set alternative allows. */
  ghost predicate SomeSetAllows(ts: set<Type>, x: Value, I: Interp) {
    exists m :: m in ts && HasTag(SetK, m) && In(x, Clean(m.elem), I)
  }

  /** ALL stands beside a set type, whose element type is then all that is reported. */
  ghost predicate AllBesideSet(t: Type) {
    t.Union? && All in t.members && exists m :: m in t.members && IsColl(SetK, m)
  }

  lemma {:induction false} StableMembers(t: Type)
    requires Pass(t) == t
    ensures RemoveInv(t) == t && !t.Inv?
    ensures t.Union? ==> forall m :: m in t.members ==> Clean(m) == m && RemoveInv(m) == m && !m.Union? && !m.Inv?
    ensures t.SetOf? ==> Clean(t.elem) == t.elem
  {
    hide Clean, RemoveInv, Pass;
    PassShrinks(t);
    StableIsNormalForm(t);
    if t.Union? {
      forall m | m in t.members ensures Clean(m) == m && RemoveInv(m) == m && !m.Union? && !m.Inv? {
        assert Flat(m) && Bare(m);
        FlatIsFixed(m);
        BareIsFixed(m);
      }
    } else if t.SetOf? {
      FlatIsFixed(t.elem);
    }
  }

  lemma {:induction false} MemberElements(t: Type, m: Type, v: Value, x: Value, I: Interp)
    requires Pass(t) == t && t.Union? && m in t.members && HasTag(SetK, m)
    requires In(v, m, I) && v.SetV? && x in v.elems
    ensures In(x, FindSetElemType(t), I)
  {
    hide Clean, RemoveInv, Pass;
    StableMembers(t);
    assert FindSetElemType(Clean(m)) in FoundElems(t);
    assert m.SetOf? && FindSetElemType(m) == Clean(m.elem);
    CleanCovers(m.elem, x, I);
    WrapMeaning(FoundElems(t), x, I);
  }

  lemma {:induction false} NoSetMember(t: Type)
    requires Pass(t) == t && t.Union? && forall m :: m in t.members ==> !IsColl(SetK, m)
    ensures FindSetElemType(t) == All
  {
    hide Clean, RemoveInv, Pass;
    StableMembers(t);
    assert FoundElems(t) == {};
  }

  function SetElemTypes(ts: set<Type>): set<Type> { set m | m in ts && HasTag(SetK, m) :: Clean(m.elem) }

  /** What is reported beside ALL: the element types of the set alternatives. */
  lemma {:induction false} ReportedType(t: Type)
    requires Pass(t) == t && AllBesideSet(t)
    ensures FindSetElemType(t) == Wrap(SetElemTypes(t.members))
  {
    hide Clean, RemoveInv, Pass, Wrap;
    StableMembers(t);
    var m :| m in t.members && IsColl(SetK, m);
    assert FindSetElemType(Clean(m)) in FoundElems(t);
    FoundAlternatives(t);
  }

  lemma {:induction false} FoundAlternatives(t: Type)
    requires t.Union?
    requires forall m :: m in t.members ==> Clean(m) == m && RemoveInv(m) == m && !m.Union? && !m.Inv?
    ensures FoundElems(t) == SetElemTypes(t.members)
  {
    hide Clean, RemoveInv;
    forall m | m in t.members ensures IsColl(SetK, m) == HasTag(SetK, m) {}
    forall m | m in t.members && HasTag(SetK, m) ensures FindSetElemType(m) == Clean(m.elem) {}
  }

  lemma {:induction false} ReportedElements(t: Type, x: Value, I: Interp)
    requires Pass(t) == t && AllBesideSet(t)
    ensures In(x, FindSetElemType(t), I) <==> SomeSetAllows(t.members, x, I)
  {
    hide Clean, Pass, FindSetElemType, In, Wrap;
    ReportedType(t);
    WrapMeaning(SetElemTypes(t.members), x, I);
    if m :| m in t.members && HasTag(SetK, m) && In(x, Clean(m.elem), I) {
      assert Clean(m.elem) in SetElemTypes(t.members);
    }
  }

  /** FindSetElemType covers every element of every set value of a stable type, except when
      ALL stands beside set types that do not allow every value as an element. */
  lemma {:induction false} FindSetElemTypeCoversIff(t: Type, I: Interp)
    requires Pass(t) == t && Closed(t) && AtomsOnly(I)
    ensures CoversElements(t, I) <==> (AllBesideSet(t) ==> forall x :: SomeSetAllows(t.members, x, I))
  {
    hide Pass, SomeSetAllows;
    if AllBesideSet(t) {
      forall x ensures In(x, FindSetElemType(t), I) <==> SomeSetAllows(t.members, x, I) { ReportedElements(t, x, I); }
      if CoversElements(t, I) { AllElementsReported(t, I); }
    } else {
      forall v, x | In(v, t, I) && v.SetV? && x in v.elems ensures In(x, FindSetElemType(t), I) {
        SetElementsCovered(t, v, x, I);
      }
    }
  }

  lemma {:induction false} AllElementsReported(t: Type, I: Interp)
    requires AllBesideSet(t) && CoversElements(t, I)
    ensures forall x :: In(x, FindSetElemType(t), I)
  {
    forall x ensures In(x, FindSetElemType(t), I) {
      InUnion(All, t.members, SetV({x}), I);
      assert x in SetV({x}).elems;
    }
  }

  lemma {:induction false} SetElementsCovered(t: Type, v: Value, x: Value, I: Interp)
    requires Pass(t) == t && Closed(t) && AtomsOnly(I) && !AllBesideSet(t)
    requires In(v, t, I) && v.SetV? && x in v.elems
    ensures In(x, FindSetElemType(t), I)
  {
    hide Clean, RemoveInv, Pass;
    StableMembers(t);
    match t
    case Union(ts) =>
      var m :| m in ts && In(v, m, I);
      if HasTag(SetK, m) {
        MemberElements(t, m, v, x, I);
      } else {
        assert m.All?;
        NoSetMember(t);
      }
    case SetOf(e) =>
    case All => assert FindSetElemType(t) == All;
    case TypeVar(_) => assert FindSetElemType(t) == All;
    case Named(_) => assert FindSetElemType(t) == All;
    case Fn(_, _, _) => assert FindSetElemType(t) == All;
    case _ =>
  }

  // ----- Which element types allow every value -----

  /** ALL is the type or one of its alternatives. */
  predicate AllAmong(t: Type)
    decreases t
  {
    match t
    case Union(ts) => exists m :: m in ts && AllAmong(m)
    case _ => t.All?
  }

  /** Neither the type nor an alternative is a type variable, a name or a function type. */
  predicate Told(t: Type)
    decreases t
  {
    match t
    case Union(ts) => forall m :: m in ts ==> Told(m)
    case _ => !t.TypeVar? && !t.Named? && !t.Fn?
  }

  /** Told, and not ALL, below unions and invariants. */
  ghost predicate Limited(t: Type)
    decreases t
  {
    match t
    case Union(ts) => forall m :: m in ts ==> Limited(m)
    case Inv(_, s) => Limited(s)
    case _ => Told(t) && !t.All?
  }

  lemma {:induction false} ToldIsLimited(t: Type)
    requires Told(t) && !AllAmong(t) && Bare(t)
    ensures Limited(t)
    decreases t
  {
    if t.Union? { forall m | m in t.members { ToldIsLimited(m); } }
  }

  /** A tuple longer than the type is heavy is none of its values. */
  lemma {:induction false} NoLongTuple(t: Type, v: Value, I: Interp)
    requires Limited(t) && AtomsOnly(I) && v.TupleV? && |v.comps| >= Weight(t)
    ensures !In(v, t, I)
    decreases t
  {
    match t
    case Union(ts) =>
      forall m | m in ts ensures !In(v, m, I) {
        SetWeightRemove(ts, m);
        NoLongTuple(m, v, I);
      }
    case Inv(_, s) => NoLongTuple(s, v, I);
    case Product(ps) => ListIsLight(ps);
    case _ =>
  }

  lemma {:induction false} ListIsLight(ps: seq<Type>)
    ensures |ps| <= SeqWeight(ps)
    decreases ps
  {
    if ps != [] { ListIsLight(ps[1..]); }
  }

  ghost predicate AllLimited(s: set<Type>) {
    forall u :: u in s ==> Limited(u)
  }

  lemma {:induction false} OptimizeKeepsLimited(s: set<Type>)
    requires AllLimited(s)
    ensures AllLimited(OptimizeType(s))
  {
    hide OptimizeType;
    forall w | w in OptimizeType(s) ensures Limited(w) { var u := Source(w, s); }
  }

  lemma {:induction false} CleanAuxKeepsLimited(t: Type)
    requires Limited(t)
    ensures AllLimited(CleanAux(t))
    decreases t, 0
  {
    hide OptimizeType, DropEmpties, Clean;
    match t
    case Union(ts) =>
      var m := CleanEach(t);
      forall x | x in ts ensures AllLimited(m[x]) { CleanAuxKeepsLimited(x); }
      DropEmptiesIsSubset(Flatten(m));
      OptimizeKeepsLimited(DropEmpties(Flatten(m)));
      assert CleanAux(t) == CleanMembers(m);
    case Inv(n, s) => CleanKeepsLimited(s);
    case _ =>
  }

  lemma {:induction false} DropEmptiesIsSubset(s: set<Type>)
    ensures DropEmpties(s) <= s
  {
  }

  lemma {:induction false} CleanKeepsLimited(t: Type)
    requires Limited(t)
    ensures Limited(Clean(t))
    decreases t, 1
  {
    hide CleanAux;
    CleanAuxKeepsLimited(t);
  }

  lemma {:induction false} TupleIsNotAllowed(t: Type, m: Type, x: Value, I: Interp)
    requires Pass(t) == t && t.Union? && m in t.members && HasTag(SetK, m) && AtomsOnly(I)
    requires Told(m.elem) && !AllAmong(m.elem) && x.TupleV? && |x.comps| >= Weight(t)
    ensures !In(x, Clean(m.elem), I)
  {
    hide Clean, Pass;
    StableIsNormalForm(t);
    ToldIsLimited(m.elem);
    CleanKeepsLimited(m.elem);
    CleanWeight(m.elem);
    SetWeightRemove(t.members, m);
    UnionWeight(t.members);
    NoLongTuple(Clean(m.elem), x, I);
  }

  /** Where element types can be told by their tags: beside ALL, the elements are covered exactly
      if ALL is an alternative of the element type of some set type. */
  lemma {:induction false} CoversIffAllAmongElements(t: Type, I: Interp)
    requires Pass(t) == t && Closed(t) && AtomsOnly(I)
    requires t.Union? ==> forall m :: m in t.members && HasTag(SetK, m) ==> Told(m.elem)
    ensures CoversElements(t, I)
            <==> (AllBesideSet(t) ==> exists m :: m in t.members && HasTag(SetK, m) && AllAmong(m.elem))
  {
    hide Pass, Clean, Told;
    FindSetElemTypeCoversIff(t, I);
    if AllBesideSet(t) {
      var long := TupleV(seq(Weight(t), i => Num(i)));
      if m :| m in t.members && HasTag(SetK, m) && AllAmong(m.elem) {
        forall x ensures SomeSetAllows(t.members, x, I) {
          EverythingInAll(m.elem, x, I);
          CleanCovers(m.elem, x, I);
        }
      } else if SomeSetAllows(t.members, long, I) {
        var m :| m in t.members && HasTag(SetK, m) && In(long, Clean(m.elem), I);
        TupleIsNotAllowed(t, m, long, I);
      }
    }
  }

  lemma {:induction false} EverythingInAll(t: Type, x: Value, I: Interp)
    requires AllAmong(t)
    ensures In(x, t, I)
    decreases t
  {
    if t.Union? {
      var m :| m in t.members && AllAmong(m);
      EverythingInAll(m, x, I);
    }
  }

  /** Beside ALL, "set of nat" makes nat the reported element type, but a set may hold anything. */
  lemma {:induction false} SetOfNatBesideAll(I: Interp)
    requires AtomsOnly(I)
    ensures var t := Union({All, SetOf(Basic("nat"))}); Pass(t) == t && !CoversElements(t, I)
  {
    hide Pass, CoversElements, Clean, RemoveInv, Told, AllAmong, Flat, Bare, HasTag, AllBesideSet, Closed;
    var t := Union({All, SetOf(Basic("nat"))});
    SetOfNatIsNormal();
    StableIsNormalForm(t);
    NatIsTold();
    SetOfNatStandsBesideAll();
    CoversIffAllAmongElements(t, I);
  }

  lemma {:induction false} SetOfNatStandsBesideAll()
    ensures var t := Union({All, SetOf(Basic("nat"))});
            && AllBesideSet(t) && Closed(t)
            && forall m :: m in t.members && HasTag(SetK, m) ==> m == SetOf(Basic("nat"))
  {
    hide Told, AllAmong;
    NatIsTold();
    assert SetOf(Basic("nat")) in {All, SetOf(Basic("nat"))};
  }

  lemma {:induction false} NatIsTold()
    ensures Told(Basic("nat")) && !AllAmong(Basic("nat")) && IsColl(SetK, SetOf(Basic("nat")))
  {
  }

  lemma {:induction false} SetOfNatIsNormal()
    ensures var t := Union({All, SetOf(Basic("nat"))}); Flat(t) && Bare(t)
  {
    var ts := {All, SetOf(Basic("nat"))};
    assert |ts| == 2;
    assert SetTypes(ts) == {SetOf(Basic("nat"))} && SeqTypes(ts) == {} && MapTypes(ts) == {} && InjMapTypes(ts) == {};
  }
}
