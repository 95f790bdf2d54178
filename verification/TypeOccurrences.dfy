/**
 Where names stand in a type: below how many constructors, and whether outside the fields
 of composites. Flattening and merging leave every name at its place, and so does the
 removal of invariants.
 */
module TypeOccurrences {
  import opened TypeReps
  import opened TypeNormaliser

  // ----- Names and how deep they stand -----

  /** Whether the fields of composites count; the passes do not look into them for names. */
  datatype Where = Outside | Everywhere

  ghost function Parts(w: Where, t: Type): set<Type> {
    match t
    case Composite(_, fs) => if w.Everywhere? then set f | f in fs else {}
    case SetOf(e) => {e}
    case EmptySet(e) => {e}
    case SeqOf(e) => {e}
    case EmptySeq(e) => {e}
    case MapOf(d, r) => {d, r}
    case InjMapOf(d, r) => {d, r}
    case EmptyMap(d, r) => {d, r}
    case Union(ts) => ts
    case Product(ps) => set p | p in ps
    case Inv(_, s) => {s}
    case Fn(_, ps, r) => (set p | p in ps) + {r}
    case _ => {}
  }

  /** Unions and invariants are no constructors of values. */
  function Step(t: Type): nat { if t.Union? || t.Inv? then 0 else 1 }

  /** The name n stands in t below exactly d constructors. */
  ghost predicate At(w: Where, t: Type, n: string, d: nat)
    decreases t
  {
    if t.Named? then t.name == n && d == 0
    else d >= Step(t) && exists p :: p in Parts(w, t) && At(w, p, n, d - Step(t))
  }

  ghost predicate SomeAt(w: Where, s: set<Type>, n: string, d: nat) {
    exists u :: u in s && At(w, u, n, d)
  }

  lemma {:induction false} PartAt(w: Where, t: Type, p: Type, n: string, d: nat)
    requires p in Parts(w, t) && At(w, p, n, d)
    ensures At(w, t, n, d + Step(t))
  {
  }

  lemma {:induction false} AtPart(w: Where, t: Type, n: string, d: nat) returns (p: Type)
    requires At(w, t, n, d) && !t.Named?
    ensures p in Parts(w, t) && d >= Step(t) && At(w, p, n, d - Step(t))
  {
    p :| p in Parts(w, t) && At(w, p, n, d - Step(t));
  }

  lemma {:induction false} NameAt(w: Where, n: string)
    ensures At(w, Named(n), n, 0)
  {
  }

  lemma {:induction false} OnlyNameAt(w: Where, n: string, m: string, e: nat)
    requires At(w, Named(n), m, e)
    ensures m == n && e == 0
  {
  }

  // ----- Cleaning and removing invariants leave every name at its depth -----

  lemma {:induction false} WrapKeepsAt(w: Where, s: set<Type>, n: string, d: nat)
    ensures At(w, Wrap(s), n, d) <==> SomeAt(w, s, n, d)
  {
    assert Parts(w, Union(s)) == s;
  }

  lemma {:induction false} DropEmptiesKeepsAt(w: Where, s: set<Type>, n: string, d: nat)
    ensures SomeAt(w, DropEmpties(s), n, d) <==> SomeAt(w, s, n, d)
  {
    if u :| u in s && At(w, u, n, d) {
      var kept := match u
        case EmptySet(e) => if SetOf(e) in s then SetOf(e) else u
        case EmptySeq(e) => if SeqOf(e) in s then SeqOf(e) else u
        case EmptyMap(a, b) =>
          if MapOf(a, b) in s then MapOf(a, b) else if InjMapOf(a, b) in s then InjMapOf(a, b) else u
        case _ => u;
      assert Parts(w, kept) == Parts(w, u);
      assert kept in DropEmpties(s) && At(w, kept, n, d);
    }
  }

  /** merged is what OptimizeType makes of the types s of one kind. */
  lemma {:induction false} MergeKeepsAt(w: Where, s: set<Type>, merged: Type, n: string, d: nat)
    requires |s| > 1 && !merged.Named? && Step(merged) == 1
    requires forall t :: t in s ==> !t.Named? && Step(t) == 1
    requires forall p :: p in Parts(w, merged) ==> p.Union? && Parts(w, p) == p.members
    requires forall p, u :: p in Parts(w, merged) && u in p.members ==> exists t :: t in s && u in Parts(w, t)
    requires forall t, u :: t in s && u in Parts(w, t) ==> exists p :: p in Parts(w, merged) && u in p.members
    ensures SomeAt(w, {merged}, n, d) <==> SomeAt(w, s, n, d)
  {
    hide At, Parts;
    if At(w, merged, n, d) {
      var p := AtPart(w, merged, n, d);
      var u := AtPart(w, p, n, d - 1);
      var t :| t in s && u in Parts(w, t);
      PartAt(w, t, u, n, d - 1);
    }
    if t :| t in s && At(w, t, n, d) {
      var u := AtPart(w, t, n, d);
      var p :| p in Parts(w, merged) && u in p.members;
      PartAt(w, p, u, n, d - 1);
      PartAt(w, merged, p, n, d - 1);
    }
  }

  lemma {:induction false} CombineKeepsAt(w: Where, s: set<Type>, n: string, d: nat)
    ensures SomeAt(w, CombineSetTypes(SetTypes(s)), n, d) <==> SomeAt(w, SetTypes(s), n, d)
    ensures SomeAt(w, CombineSeqTypes(SeqTypes(s)), n, d) <==> SomeAt(w, SeqTypes(s), n, d)
  {
    hide At;
    var a, b := SetTypes(s), SeqTypes(s);
    if |a| > 1 { MergeKeepsAt(w, a, SetOf(Union(SetElems(a))), n, d); }
    if |b| > 1 { MergeKeepsAt(w, b, SeqOf(Union(SeqElems(b))), n, d); }
  }

  lemma {:induction false} CombineMapsKeepsAt(w: Where, s: set<Type>, n: string, d: nat)
    ensures SomeAt(w, CombineGenMapTypes(MapTypes(s)), n, d) <==> SomeAt(w, MapTypes(s), n, d)
    ensures SomeAt(w, CombineInjMapTypes(InjMapTypes(s)), n, d) <==> SomeAt(w, InjMapTypes(s), n, d)
  {
    hide At;
    var a, b := MapTypes(s), InjMapTypes(s);
    if |a| > 1 { MergeKeepsAt(w, a, MapOf(Union(MapDoms(a)), Union(MapRngs(a))), n, d); }
    if |b| > 1 { MergeKeepsAt(w, b, InjMapOf(Union(InjMapDoms(b)), Union(InjMapRngs(b))), n, d); }
  }

  lemma {:induction false} OptimizeKeepsAt(w: Where, s: set<Type>, n: string, d: nat)
    ensures SomeAt(w, OptimizeType(s), n, d) <==> SomeAt(w, s, n, d)
  {
    hide At;
    CombineKeepsAt(w, s, n, d);
    CombineMapsKeepsAt(w, s, n, d);
    hide CombineSetTypes, CombineSeqTypes, CombineGenMapTypes, CombineInjMapTypes;
    assert s == Others(s) + SetTypes(s) + SeqTypes(s) + MapTypes(s) + InjMapTypes(s);
  }

  lemma {:induction false} FlattenKeepsAt(w: Where, m: map<Type, set<Type>>, n: string, d: nat)
    requires forall t :: t in m ==> (SomeAt(w, m[t], n, d) <==> At(w, t, n, d))
    ensures SomeAt(w, Flatten(m), n, d) <==> SomeAt(w, m.Keys, n, d)
  {
    hide At;
    if t :| t in m && At(w, t, n, d) {
      var u :| u in m[t] && At(w, u, n, d);
      assert u in Flatten(m);
    }
  }

  /** The same names at the same depths, as far as n is concerned. */
  ghost predicate SameAt(w: Where, t: Type, u: Type, n: string) {
    forall d: nat :: At(w, t, n, d) <==> At(w, u, n, d)
  }

  ghost predicate Image(w: Where, s: set<Type>, r: set<Type>, n: string) {
    forall p :: p in s ==> exists q :: q in r && SameAt(w, p, q, n)
  }

  lemma {:induction false} ImageAt(w: Where, t: Type, u: Type, n: string, d: nat)
    requires !t.Named? && !u.Named? && Step(t) == Step(u) && Image(w, Parts(w, t), Parts(w, u), n) && At(w, t, n, d)
    ensures At(w, u, n, d)
  {
    hide At, Parts;
    var p := AtPart(w, t, n, d);
    var q :| q in Parts(w, u) && SameAt(w, p, q, n);
    PartAt(w, u, q, n, d - Step(t));
  }

  lemma {:induction false} CleanParts(ps: seq<Type>)
    ensures (set q | q in CleanAll(ps)) == set p | p in ps :: Clean(p)
  {
    hide Clean;
    var us := CleanAll(ps);
    forall p | p in ps ensures Clean(p) in us {
      var i :| 0 <= i < |ps| && ps[i] == p;
      assert us[i] == Clean(p);
    }
    forall q | q in us ensures exists p :: p in ps && q == Clean(p) {
      var i :| 0 <= i < |us| && us[i] == q;
      assert ps[i] in ps;
    }
  }

  lemma {:induction false} CleanNode(w: Where, t: Type) returns (u: Type)
    requires !t.Union? && !t.Named?
    ensures CleanAux(t) == {u} && !u.Named? && Step(u) == Step(t)
    ensures u == t || Parts(w, u) == set p | p in Parts(w, t) :: Clean(p)
  {
    hide Clean;
    match t
    case SetOf(e) => u := SetOf(Clean(e));
    case SeqOf(e) => u := SeqOf(Clean(e));
    case Composite(g, fs) =>
      CleanParts(fs);
      u := Composite(g, CleanAll(fs));
    case Product(ps) =>
      CleanParts(ps);
      u := Product(CleanAll(ps));
    case MapOf(d, r) => u := MapOf(Clean(d), Clean(r));
    case InjMapOf(d, r) => u := InjMapOf(Clean(d), Clean(r));
    case Inv(n, s) => u := Inv(n, Clean(s));
    case _ => u := t;
  }

  lemma {:induction false} UnionKeepsAt(w: Where, t: Type, m: map<Type, set<Type>>, n: string, d: nat)
    requires t.Union? && m == CleanEach(t) && forall x :: x in m ==> (SomeAt(w, m[x], n, d) <==> At(w, x, n, d))
    ensures SomeAt(w, CleanAux(t), n, d) <==> At(w, t, n, d)
  {
    hide Clean, OptimizeType, DropEmpties, Flatten, At;
    FlattenKeepsAt(w, m, n, d);
    DropEmptiesKeepsAt(w, Flatten(m), n, d);
    OptimizeKeepsAt(w, DropEmpties(Flatten(m)), n, d);
    UnionAt(w, t, n, d);
    assert m.Keys == t.members && CleanAux(t) == CleanMembers(m);
  }

  lemma {:induction false} CleanAuxKeepsAt(w: Where, t: Type, n: string, d: nat)
    ensures SomeAt(w, CleanAux(t), n, d) <==> At(w, t, n, d)
    decreases t, 0
  {
    hide Clean, CleanMembers, At;
    if t.Union? {
      var m := CleanEach(t);
      forall x | x in m ensures SomeAt(w, m[x], n, d) <==> At(w, x, n, d) { CleanAuxKeepsAt(w, x, n, d); }
      UnionKeepsAt(w, t, m, n, d);
    } else if !t.Named? {
      var u := CleanNode(w, t);
      forall p | p in Parts(w, t) ensures SameAt(w, p, Clean(p), n) { forall e: nat { CleanKeepsAt(w, p, n, e); } }
      if u != t { NodeKeepsAt(w, t, u, n, d); }
    } else {
      assert CleanAux(t) == {t};
    }
  }

  lemma {:induction false} NodeKeepsAt(w: Where, t: Type, u: Type, n: string, d: nat)
    requires !t.Named? && !u.Named? && Step(t) == Step(u) && Parts(w, u) == set p | p in Parts(w, t) :: Clean(p)
    requires forall p :: p in Parts(w, t) ==> SameAt(w, p, Clean(p), n)
    ensures At(w, u, n, d) <==> At(w, t, n, d)
  {
    hide At, Parts, Clean;
    if At(w, t, n, d) { ImageAt(w, t, u, n, d); }
    if At(w, u, n, d) { ImageAt(w, u, t, n, d); }
  }

  lemma {:induction false} UnionAt(w: Where, t: Type, n: string, d: nat)
    requires t.Union?
    ensures At(w, t, n, d) <==> SomeAt(w, t.members, n, d)
  {
    assert Parts(w, t) == t.members;
  }

  lemma {:induction false} CleanKeepsAt(w: Where, t: Type, n: string, d: nat)
    ensures At(w, Clean(t), n, d) <==> At(w, t, n, d)
    decreases t, 1
  {
    CleanAuxKeepsAt(w, t, n, d);
    WrapKeepsAt(w, CleanAux(t), n, d);
  }

  lemma {:induction false} RemoveInvNode(t: Type)
    requires !t.Union? && !t.Inv? && !t.Named?
    ensures var u := RemoveInv(t);
            !u.Named? && Step(u) == Step(t) && Parts(Outside, u) == set p | p in Parts(Outside, t) :: RemoveInv(p)
  {
    hide Wrap, RemoveInvEach;
    var u := RemoveInv(t);
    match t
    case Product(ps) => RemoveInvParts(ps);
    case Fn(_, ps, _) => RemoveInvParts(ps);
    case _ =>
  }

  lemma {:induction false} RemoveInvParts(ps: seq<Type>)
    ensures (set q | q in RemoveInvAll(ps)) == set p | p in ps :: RemoveInv(p)
  {
    hide RemoveInv;
    var us := RemoveInvAll(ps);
    forall p | p in ps ensures RemoveInv(p) in us {
      var i :| 0 <= i < |ps| && ps[i] == p;
      assert us[i] == RemoveInv(p);
    }
    forall q | q in us ensures exists p :: p in ps && q == RemoveInv(p) {
      var i :| 0 <= i < |us| && us[i] == q;
      assert ps[i] in ps;
    }
  }

  lemma {:induction false} RemoveInvKeepsAt(t: Type, n: string, d: nat)
    ensures At(Outside, RemoveInv(t), n, d) <==> At(Outside, t, n, d)
    decreases t
  {
    hide RemoveInv, At;
    if t.Named? {
      RemoveInvName(t);
    } else if t.Inv? {
      InvAt(t, n, d);
      RemoveInvKeepsAt(t.shape, n, d);
    } else if t.Union? {
      forall m | m in t.members { RemoveInvKeepsAt(m, n, d); }
      UnionAt(Outside, t, n, d);
      WrapKeepsAt(Outside, RemoveInvEach(t), n, d);
      RemoveInvUnion(t);
      forall m | m in t.members ensures RemoveInv(m) in RemoveInvEach(t) {}
    } else {
      var u := RemoveInv(t);
      RemoveInvNode(t);
      forall p | p in Parts(Outside, t) ensures SameAt(Outside, p, RemoveInv(p), n) {
        forall e: nat { RemoveInvKeepsAt(p, n, e); }
      }
      if At(Outside, t, n, d) { ImageAt(Outside, t, u, n, d); }
      if At(Outside, u, n, d) { ImageAt(Outside, u, t, n, d); }
    }
  }

  lemma {:induction false} RemoveInvName(t: Type)
    requires t.Named?
    ensures RemoveInv(t) == t
  {
  }

  lemma {:induction false} RemoveInvUnion(t: Type)
    requires t.Union?
    ensures RemoveInv(t) == Wrap(RemoveInvEach(t))
  {
  }

  lemma {:induction false} InvAt(t: Type, n: string, d: nat)
    requires t.Inv?
    ensures RemoveInv(t) == RemoveInv(t.shape) && (At(Outside, t, n, d) <==> At(Outside, t.shape, n, d))
  {
    assert Parts(Outside, t) == {t.shape};
  }

  ghost predicate NoInv(t: Type)
    decreases t
  {
    !t.Inv? && forall p :: p in Parts(Outside, t) ==> NoInv(p)
  }

  lemma {:induction false} RemoveInvHasNoInv(t: Type)
    ensures NoInv(RemoveInv(t))
    decreases t
  {
    hide RemoveInv;
    if t.Named? {
      RemoveInvName(t);
    } else if t.Inv? {
      InvAt(t, "", 0);
      RemoveInvHasNoInv(t.shape);
    } else if t.Union? {
      forall m | m in t.members { RemoveInvHasNoInv(m); }
      RemoveInvUnion(t);
      assert forall u :: u in RemoveInvEach(t) ==> NoInv(u);
      assert Parts(Outside, Union(RemoveInvEach(t))) == RemoveInvEach(t);
    } else {
      forall p | p in Parts(Outside, t) { RemoveInvHasNoInv(p); }
      RemoveInvNode(t);
      RemoveInvNoneNew(t);
    }
  }

  lemma {:induction false} RemoveInvNoneNew(t: Type)
    requires !t.Union? && !t.Inv?
    ensures !RemoveInv(t).Inv?
  {
  }
}
