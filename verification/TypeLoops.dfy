/**
 CleanAndFlattenTypeAux and OptimizeType as the source runs them, looping over
 sets in any order; each computes the function of TypeNormaliser.
 */
module TypeLoops {
  import opened TypeReps
  import N = TypeNormaliser

  method CombineSetTypes(s: set<Type>) returns (res: set<Type>)
    requires forall t :: t in s ==> t.SetOf?
    ensures res == N.CombineSetTypes(s)
  {
    if |s| <= 1 { return s; }
    var st: set<Type>, todo := {}, s;
    while todo != {}
      invariant todo <= s && st == N.SetElems(s - todo)
    {
      var e :| e in todo;
      st, todo := st + {e.elem}, todo - {e};
      assert s - todo == s - (todo + {e}) + {e};
    }
    assert s - {} == s;
    res := {SetOf(Union(st))};
  }

  method CombineSeqTypes(s: set<Type>) returns (res: set<Type>)
    requires forall t :: t in s ==> t.SeqOf?
    ensures res == N.CombineSeqTypes(s)
  {
    if |s| <= 1 { return s; }
    var st: set<Type>, todo := {}, s;
    while todo != {}
      invariant todo <= s && st == N.SeqElems(s - todo)
    {
      var e :| e in todo;
      st, todo := st + {e.elem}, todo - {e};
      assert s - todo == s - (todo + {e}) + {e};
    }
    assert s - {} == s;
    res := {SeqOf(Union(st))};
  }

  method CombineGenMapTypes(s: set<Type>) returns (res: set<Type>)
    requires forall t :: t in s ==> t.MapOf?
    ensures res == N.CombineGenMapTypes(s)
  {
    if |s| <= 1 { return s; }
    var md: set<Type>, mr: set<Type>, todo := {}, {}, s;
    while todo != {}
      invariant todo <= s && md == N.MapDoms(s - todo) && mr == N.MapRngs(s - todo)
    {
      var e :| e in todo;
      md, mr, todo := md + {e.dom}, mr + {e.rng}, todo - {e};
      assert s - todo == s - (todo + {e}) + {e};
    }
    assert s - {} == s;
    res := {MapOf(Union(md), Union(mr))};
  }

  method CombineInjMapTypes(s: set<Type>) returns (res: set<Type>)
    requires forall t :: t in s ==> t.InjMapOf?
    ensures res == N.CombineInjMapTypes(s)
  {
    if |s| <= 1 { return s; }
    var md: set<Type>, mr: set<Type>, todo := {}, {}, s;
    while todo != {}
      invariant todo <= s && md == N.InjMapDoms(s - todo) && mr == N.InjMapRngs(s - todo)
    {
      var e :| e in todo;
      md, mr, todo := md + {e.dom}, mr + {e.rng}, todo - {e};
      assert s - todo == s - (todo + {e}) + {e};
    }
    assert s - {} == s;
    res := {InjMapOf(Union(md), Union(mr))};
  }

  method Partition(tps: set<Type>)
    returns (sets: set<Type>, seqs: set<Type>, gens: set<Type>, injs: set<Type>)
    ensures sets == N.SetTypes(tps) && seqs == N.SeqTypes(tps)
    ensures gens == N.MapTypes(tps) && injs == N.InjMapTypes(tps)
  {
    sets, seqs, gens, injs := {}, {}, {}, {};
    var todo := tps;
    while todo != {}
      invariant todo <= tps
      invariant sets == N.SetTypes(tps - todo) && seqs == N.SeqTypes(tps - todo)
      invariant gens == N.MapTypes(tps - todo) && injs == N.InjMapTypes(tps - todo)
    {
      var t :| t in todo;
      match t {
        case SetOf(_) => sets := sets + {t};
        case SeqOf(_) => seqs := seqs + {t};
        case MapOf(_, _) => gens := gens + {t};
        case InjMapOf(_, _) => injs := injs + {t};
        case _ =>
      }
      todo := todo - {t};
      assert tps - todo == tps - (todo + {t}) + {t};
    }
    assert tps - {} == tps;
  }

  method OptimizeType(tps0: set<Type>) returns (tps: set<Type>)
    ensures tps == N.OptimizeType(tps0)
  {
    var sets, seqs, gens, injs := Partition(tps0);
    tps := tps0 - sets - seqs - gens - injs;
    assert tps == N.Others(tps0);
    var a := CombineSetTypes(sets);
    var b := CombineSeqTypes(seqs);
    var c := CombineGenMapTypes(gens);
    var d := CombineInjMapTypes(injs);
    tps := tps + a + b + c + d;
  }

  function EmptyTypesOf(t: Type): set<Type> {
    match t
    case SetOf(e) => {EmptySet(e)}
    case SeqOf(e) => {EmptySeq(e)}
    case MapOf(d, r) => {EmptyMap(d, r)}
    case InjMapOf(d, r) => {EmptyMap(d, r)}
    case _ => {}
  }

  /** The source collects the empty-collection types to drop and subtracts them. */
  method DropEmpties(s: set<Type>) returns (r: set<Type>)
    ensures r == N.DropEmpties(s)
  {
    var emset: set<Type>, todo := {}, s;
    while todo != {}
      invariant todo <= s
      invariant forall x :: x in emset <==> exists t :: t in s - todo && x in EmptyTypesOf(t)
    {
      var t :| t in todo;
      emset, todo := emset + EmptyTypesOf(t), todo - {t};
    }
    r := s - emset;
    forall x | x in s ensures x in emset <==> N.Absorbed(x, s) { AbsorbedIff(x, s); }
  }

  lemma {:induction false} AbsorbedIff(x: Type, s: set<Type>)
    ensures N.Absorbed(x, s) <==> exists t :: t in s && x in EmptyTypesOf(t)
  {
    match x
    case EmptySet(e) => assert x in EmptyTypesOf(SetOf(e));
    case EmptySeq(e) => assert x in EmptyTypesOf(SeqOf(e));
    case EmptyMap(d, r) => assert x in EmptyTypesOf(MapOf(d, r)) && x in EmptyTypesOf(InjMapOf(d, r));
    case _ =>
  }

  method CleanAndFlattenType(t: Type) returns (r: Type)
    ensures r == N.Clean(t)
    decreases t, 2
  {
    var tps := CleanAndFlattenTypeAux(t);
    r := if |tps| == 1 then N.TheElement(tps) else Union(tps);
  }

  method CleanAll(ts: seq<Type>) returns (us: seq<Type>)
    ensures us == N.CleanAll(ts)
    decreases ts, 0
  {
    hide N.Clean;
    us := [];
    for i := 0 to |ts|
      invariant |us| == i && forall j :: 0 <= j < i ==> us[j] == N.Clean(ts[j])
    {
      var u := CleanAndFlattenType(ts[i]);
      us := us + [u];
    }
  }

  method CleanAndFlattenTypeAux(t: Type) returns (r: set<Type>)
    ensures r == N.CleanAux(t)
    decreases t, 1
  {
    hide N.Clean, N.CleanMembers, N.Flatten;
    match t
    case SetOf(e) =>
      var e' := CleanAndFlattenType(e);
      r := {SetOf(e')};
    case SeqOf(e) =>
      var e' := CleanAndFlattenType(e);
      r := {SeqOf(e')};
    case MapOf(d, m) =>
      var d' := CleanAndFlattenType(d);
      var m' := CleanAndFlattenType(m);
      r := {MapOf(d', m')};
    case InjMapOf(d, m) =>
      var d' := CleanAndFlattenType(d);
      var m' := CleanAndFlattenType(m);
      r := {InjMapOf(d', m')};
    case Inv(n, s) =>
      var s' := CleanAndFlattenType(s);
      r := {Inv(n, s')};
    case Product(ps) =>
      var ps' := CleanAll(ps);
      r := {Product(ps')};
    case Composite(g, fs) =>
      var fs' := CleanAll(fs);
      r := {Composite(g, fs')};
    case Union(_) => r := CleanUnion(t);
    case _ => r := {t};
  }

  method CleanUnion(t: Type) returns (r: set<Type>)
    requires t.Union?
    ensures r == N.CleanMembers(N.CleanEach(t))
    decreases t, 0
  {
    ghost var each := N.CleanEach(t);
    var all: set<Type>, todo := {}, t.members;
    while todo != {}
      invariant todo <= t.members
      invariant forall u :: u in all <==> exists m :: m in t.members - todo && u in each[m]
    {
      var m :| m in todo;
      var us := CleanAndFlattenTypeAux(m);
      assert us == each[m];
      all, todo := all + us, todo - {m};
    }
    assert all == N.Flatten(each);
    all := DropEmpties(all);
    r := OptimizeType(all);
  }
}
