/**
 When OptimizeType may merge collection types of one kind without gaining values.
 */
module TypeMerging {
  import opened VdmValues
  import opened TypeReps
  import opened TypeNormaliser
  import opened TypeMeaning

  // ----- What OptimizeType leaves -----

  /** The set types in s together allow every element of v. */
  ghost predicate InMergedSet(v: Value, s: set<Type>, I: Interp) {
    && v.SetV? && (exists t :: t in s && t.SetOf?)
    && forall x :: x in v.elems ==> exists t :: t in s && t.SetOf? && In(x, t.elem, I)
  }

  ghost predicate InMergedSeq(v: Value, s: set<Type>, I: Interp) {
    && v.SeqV? && (exists t :: t in s && t.SeqOf?)
    && forall x :: x in v.items ==> exists t :: t in s && t.SeqOf? && In(x, t.elem, I)
  }

  ghost predicate InMergedMap(v: Value, s: set<Type>, I: Interp) {
    && v.MapV? && (exists t :: t in s && t.MapOf?)
    && (forall k :: k in v.entries ==> exists t :: t in s && t.MapOf? && In(k, t.dom, I))
    && forall k :: k in v.entries ==> exists t :: t in s && t.MapOf? && In(v.entries[k], t.rng, I)
  }

  ghost predicate InMergedInjMap(v: Value, s: set<Type>, I: Interp) {
    && v.MapV? && Injective(v.entries) && (exists t :: t in s && t.InjMapOf?)
    && (forall k :: k in v.entries ==> exists t :: t in s && t.InjMapOf? && In(k, t.dom, I))
    && forall k :: k in v.entries ==> exists t :: t in s && t.InjMapOf? && In(v.entries[k], t.rng, I)
  }

  lemma {:induction false} SetsMerge(s: set<Type>, v: Value, I: Interp)
    ensures InSome(v, CombineSetTypes(SetTypes(s)), I) <==> InMergedSet(v, s, I)
  {
    var ts := SetTypes(s);
    if |ts| == 0 {
      assert ts == {} && forall t :: t in s ==> t !in ts;
    } else if |ts| == 1 {
      var t := TheElement(ts);
      assert forall u :: u in s && u.SetOf? ==> u in ts;
    } else {
      var t :| t in ts;
      UnionOfElems(s, I);
      InOnly(SetOf(Union(SetElems(ts))), v, I);
    }
  }

  lemma {:induction false} UnionOfElems(s: set<Type>, I: Interp)
    ensures forall x :: In(x, Union(SetElems(SetTypes(s))), I) <==> exists t :: t in s && t.SetOf? && In(x, t.elem, I)
    ensures forall x :: In(x, Union(SeqElems(SeqTypes(s))), I) <==> exists t :: t in s && t.SeqOf? && In(x, t.elem, I)
  {
    assert forall t :: t in s && t.SetOf? <==> t in SetTypes(s);
    assert forall t :: t in s && t.SeqOf? <==> t in SeqTypes(s);
  }

  lemma {:induction false} InOnly(t: Type, v: Value, I: Interp)
    ensures InSome(v, {t}, I) <==> In(v, t, I)
  {
  }

  lemma {:induction false} SeqsMerge(s: set<Type>, v: Value, I: Interp)
    ensures InSome(v, CombineSeqTypes(SeqTypes(s)), I) <==> InMergedSeq(v, s, I)
  {
    var ts := SeqTypes(s);
    if |ts| == 0 {
      assert ts == {} && forall t :: t in s ==> t !in ts;
    } else if |ts| == 1 {
      var t := TheElement(ts);
      assert forall u :: u in s && u.SeqOf? ==> u in ts;
    } else {
      var t :| t in ts;
      UnionOfElems(s, I);
      InOnly(SeqOf(Union(SeqElems(ts))), v, I);
    }
  }

  lemma {:induction false} UnionOfParts(s: set<Type>, I: Interp)
    ensures forall x :: In(x, Union(MapDoms(MapTypes(s))), I) <==> exists t :: t in s && t.MapOf? && In(x, t.dom, I)
    ensures forall x :: In(x, Union(MapRngs(MapTypes(s))), I) <==> exists t :: t in s && t.MapOf? && In(x, t.rng, I)
  {
    assert forall t :: t in s && t.MapOf? <==> t in MapTypes(s);
  }

  lemma {:induction false} UnionOfInjParts(s: set<Type>, I: Interp)
    ensures forall x :: In(x, Union(InjMapDoms(InjMapTypes(s))), I) <==>
                        exists t :: t in s && t.InjMapOf? && In(x, t.dom, I)
    ensures forall x :: In(x, Union(InjMapRngs(InjMapTypes(s))), I) <==>
                        exists t :: t in s && t.InjMapOf? && In(x, t.rng, I)
  {
    assert forall t :: t in s && t.InjMapOf? <==> t in InjMapTypes(s);
  }

  lemma {:induction false} MapsMerge(s: set<Type>, v: Value, I: Interp)
    ensures InSome(v, CombineGenMapTypes(MapTypes(s)), I) <==> InMergedMap(v, s, I)
  {
    var ts := MapTypes(s);
    if |ts| == 0 {
      assert ts == {} && forall t :: t in s ==> t !in ts;
    } else if |ts| == 1 {
      var t := TheElement(ts);
      assert forall u :: u in s && u.MapOf? ==> u in ts;
    } else {
      var t :| t in ts;
      UnionOfParts(s, I);
      InOnly(MapOf(Union(MapDoms(ts)), Union(MapRngs(ts))), v, I);
    }
  }

  lemma {:induction false} InjMapsMerge(s: set<Type>, v: Value, I: Interp)
    ensures InSome(v, CombineInjMapTypes(InjMapTypes(s)), I) <==> InMergedInjMap(v, s, I)
  {
    var ts := InjMapTypes(s);
    if |ts| == 0 {
      assert ts == {} && forall t :: t in s ==> t !in ts;
    } else if |ts| == 1 {
      var t := TheElement(ts);
      assert forall u :: u in s && u.InjMapOf? ==> u in ts;
    } else {
      var t :| t in ts;
      UnionOfInjParts(s, I);
      InOnly(InjMapOf(Union(InjMapDoms(ts)), Union(InjMapRngs(ts))), v, I);
    }
  }

  /** Exactly the values that OptimizeType leaves: those of the other types, and all collections
      whose elements the collection types of that kind allow together. */
  lemma {:induction false} OptimizeMeans(s: set<Type>, v: Value, I: Interp)
    ensures InSome(v, OptimizeType(s), I) <==>
              || (exists t :: t in s && !IsCollection(t) && In(v, t, I))
              || InMergedSet(v, s, I) || InMergedSeq(v, s, I) || InMergedMap(v, s, I) || InMergedInjMap(v, s, I)
  {
    SetsMerge(s, v, I);
    SeqsMerge(s, v, I);
    MapsMerge(s, v, I);
    InjMapsMerge(s, v, I);
    hide In, CombineSetTypes, CombineSeqTypes, CombineGenMapTypes, CombineInjMapTypes;
    hide InMergedSet, InMergedSeq, InMergedMap, InMergedInjMap;
  }

  // ----- Set types -----

  ghost predicate Within(small: Type, large: Type, I: Interp) {
    forall x :: In(x, small, I) ==> In(x, large, I)
  }

  ghost predicate InASetOf(v: Value, es: set<Type>, I: Interp) {
    exists e :: e in es && In(v, SetOf(e), I)
  }

  /** top contains every value of every element type. */
  ghost predicate Tops(top: Type, es: set<Type>, I: Interp) {
    forall e :: e in es ==> Within(e, top, I)
  }

  ghost function Outlier(t: Type, es: set<Type>, I: Interp): (x: Value)
    requires t in es && !Tops(t, es, I)
    ensures In(x, Union(es), I) && !In(x, t, I)
  {
    var e :| e in es && !Within(e, t, I);
    var x :| In(x, e, I) && !In(x, t, I);
    x
  }

  lemma {:induction false} ToppedIsExact(top: Type, es: set<Type>, v: Value, I: Interp)
    requires top in es && Tops(top, es, I) && In(v, SetOf(Union(es)), I)
    ensures InASetOf(v, es, I)
  {
    forall x | x in v.elems ensures In(x, top, I) {
      assert In(x, Union(es), I);
      var e :| e in es && In(x, e, I);
      assert Within(e, top, I);
    }
    assert In(v, SetOf(top), I);
  }

  lemma {:induction false} UntoppedIsNot(es: set<Type>, I: Interp) returns (odd: Value)
    requires forall t :: t in es ==> !Tops(t, es, I)
    ensures In(odd, SetOf(Union(es)), I) && !InASetOf(odd, es, I)
  {
    hide Tops, Within;
    odd := SetV(set t | t in es :: Outlier(t, es, I));
    forall x | x in odd.elems ensures In(x, Union(es), I) {
      var t :| t in es && x == Outlier(t, es, I);
    }
    forall e | e in es ensures !In(odd, SetOf(e), I) {
      assert Outlier(e, es, I) in odd.elems;
    }
  }

  /** Replacing the types "set of e", e in es, by one "set of the union of es"
      changes nothing exactly when one element type already contains all others. */
  lemma {:induction false} SetMergeExactIff(es: set<Type>, I: Interp)
    requires es != {}
    ensures (forall v :: In(v, SetOf(Union(es)), I) ==> InASetOf(v, es, I))
            <==> exists top :: top in es && Tops(top, es, I)
  {
    hide Tops, InASetOf, In;
    if top :| top in es && Tops(top, es, I) {
      forall v | In(v, SetOf(Union(es)), I) ensures InASetOf(v, es, I) { ToppedIsExact(top, es, v, I); }
    } else {
      var odd := UntoppedIsNot(es, I);
    }
  }

  // ----- Sequence types -----

  ghost predicate InASeqOf(v: Value, es: set<Type>, I: Interp) {
    exists e :: e in es && In(v, SeqOf(e), I)
  }

  lemma {:induction false} Listing(s: set<Value>) returns (q: seq<Value>)
    ensures forall x :: x in q <==> x in s
  {
    if s == {} {
      q := [];
    } else {
      var x :| x in s;
      var r := Listing(s - {x});
      q := [x] + r;
    }
  }

  /** A sequence is in "seq of e" if the set of its elements is in "set of e". */
  lemma {:induction false} SeqAsSet(q: seq<Value>, e: Type, I: Interp)
    ensures In(SeqV(q), SeqOf(e), I) <==> In(SetV(set x | x in q), SetOf(e), I)
  {
  }

  /** The same for "seq of e" as for "set of e". */
  lemma {:induction false} SeqMergeExactIff(es: set<Type>, I: Interp)
    requires es != {}
    ensures (forall v :: In(v, SeqOf(Union(es)), I) ==> InASeqOf(v, es, I))
            <==> exists top :: top in es && Tops(top, es, I)
  {
    hide Tops, In;
    SetMergeExactIff(es, I);
    if top :| top in es && Tops(top, es, I) {
      forall v | In(v, SeqOf(Union(es)), I) ensures InASeqOf(v, es, I) {
        var q := SequencesOnly(v, Union(es), I);
        SeqAsSet(q, Union(es), I);
        var e :| e in es && In(SetV(set x | x in q), SetOf(e), I);
        SeqAsSet(q, e, I);
      }
    } else {
      var odd := UntoppedIsNot(es, I);
      var s := SetsOnly(odd, Union(es), I);
      var q := Listing(s);
      assert s == set x | x in q;
      SeqAsSet(q, Union(es), I);
      forall e | e in es ensures !In(SeqV(q), SeqOf(e), I) { SeqAsSet(q, e, I); }
    }
  }

  lemma {:induction false} SequencesOnly(v: Value, e: Type, I: Interp) returns (q: seq<Value>)
    requires In(v, SeqOf(e), I)
    ensures v == SeqV(q)
  {
    q := v.items;
  }

  lemma {:induction false} SetsOnly(v: Value, e: Type, I: Interp) returns (s: set<Value>)
    requires In(v, SetOf(e), I)
    ensures v == SetV(s)
  {
    s := v.elems;
  }

  // ----- Map types -----

  /** Domains and ranges of map types. */
  datatype Pair = Pair(dom: Type, rng: Type)

  function Doms(ps: set<Pair>): set<Type> { set p | p in ps :: p.dom }
  function Rngs(ps: set<Pair>): set<Type> { set p | p in ps :: p.rng }

  function MapType(inj: bool, d: Type, r: Type): Type { if inj then InjMapOf(d, r) else MapOf(d, r) }

  function MergedMap(inj: bool, ps: set<Pair>): Type { MapType(inj, Union(Doms(ps)), Union(Rngs(ps))) }

  ghost predicate InAMapOf(v: Value, inj: bool, ps: set<Pair>, I: Interp) {
    exists p :: p in ps && In(v, MapType(inj, p.dom, p.rng), I)
  }

  /** p allows every key and every value that some pair allows. */
  ghost predicate TopsPairs(p: Pair, ps: set<Pair>, I: Interp) {
    Within(Union(Doms(ps)), p.dom, I) && Within(Union(Rngs(ps)), p.rng, I)
  }

  lemma {:induction false} ToppedMapIsExact(inj: bool, top: Pair, ps: set<Pair>, v: Value, I: Interp)
    requires top in ps && TopsPairs(top, ps, I) && In(v, MergedMap(inj, ps), I)
    ensures InAMapOf(v, inj, ps, I)
  {
    forall k | k in v.entries ensures In(k, top.dom, I) && In(v.entries[k], top.rng, I) {
      assert In(k, Union(Doms(ps)), I) && In(v.entries[k], Union(Rngs(ps)), I);
    }
    assert In(v, MapType(inj, top.dom, top.rng), I);
  }

  /** Some entry of m is not allowed by p. */
  ghost predicate Breaks(m: map<Value, Value>, p: Pair, I: Interp) {
    exists k :: k in m && !(In(k, p.dom, I) && In(m[k], p.rng, I))
  }

  /** Distinct keys and values to choose from: as many keys as map types, and for injective maps
      as many values. */
  ghost predicate Enough(inj: bool, ps: set<Pair>, n: nat, keys: set<Value>, vals: set<Value>, I: Interp) {
    && |keys| >= n && vals != {} && (inj ==> |vals| >= n)
    && (forall k :: k in keys ==> In(k, Union(Doms(ps)), I))
    && forall v :: v in vals ==> In(v, Union(Rngs(ps)), I)
  }

  ghost predicate Odd(inj: bool, ps: set<Pair>, broken: set<Pair>, m: map<Value, Value>, I: Interp) {
    && |m| <= |broken| && (inj ==> Injective(m))
    && (forall k :: k in m ==> In(k, Union(Doms(ps)), I) && In(m[k], Union(Rngs(ps)), I))
    && forall p :: p in broken ==> Breaks(m, p, I)
  }

  lemma {:induction false} Unused(a: set<Value>, b: set<Value>) returns (x: Value)
    requires |b| < |a|
    ensures x in a && x !in b
  {
    assert |a| <= |a - b| + |b| by { assert a == (a - b) + (a * b) && b == (b - a) + (a * b); }
    x :| x in a - b;
  }

  lemma {:induction false} ValuesFewer(m: map<Value, Value>)
    ensures |m.Values| <= |m|
    decreases |m|
  {
    if m != map[] {
      var k :| k in m;
      var r := m - {k};
      ValuesFewer(r);
      assert m.Values == r.Values + {m[k]} by {
        forall v | v in m.Values ensures v in r.Values + {m[k]} {
          var j :| j in m && m[j] == v;
          if j != k { assert j in r && r[j] == v; }
        }
      }
      assert |r| == |m| - 1 by { assert r.Keys == m.Keys - {k}; }
    } else {
      assert m.Values == {};
    }
  }

  /** One more entry, under a new key and for injective maps with a new value. */
  lemma {:induction false} Extend(inj: bool, ps: set<Pair>, broken: set<Pair>, m: map<Value, Value>, p: Pair,
                                  k: Value, v: Value, I: Interp)
    requires Odd(inj, ps, broken, m, I) && p !in broken && k !in m && (inj ==> v !in m.Values)
    requires In(k, Union(Doms(ps)), I) && In(v, Union(Rngs(ps)), I) && !(In(k, p.dom, I) && In(v, p.rng, I))
    ensures Odd(inj, ps, broken + {p}, m[k := v], I)
  {
    hide In, Injective, Breaks, Doms, Rngs;
    var n := m[k := v];
    assert n.Keys == m.Keys + {k};
    forall q | q in broken ensures Breaks(n, q, I) { StillBroken(m, k, v, q, I); }
    assert Breaks(n, p, I) by { NowBroken(m, k, v, p, I); }
    if inj { StillInjective(m, k, v); }
  }

  lemma {:induction false} StillBroken(m: map<Value, Value>, k: Value, v: Value, q: Pair, I: Interp)
    requires Breaks(m, q, I) && k !in m
    ensures Breaks(m[k := v], q, I)
  {
    hide In;
    var j :| j in m && !(In(j, q.dom, I) && In(m[j], q.rng, I));
    assert j in m[k := v] && m[k := v][j] == m[j];
  }

  lemma {:induction false} NowBroken(m: map<Value, Value>, k: Value, v: Value, q: Pair, I: Interp)
    requires !(In(k, q.dom, I) && In(v, q.rng, I))
    ensures Breaks(m[k := v], q, I)
  {
    hide In;
    assert k in m[k := v] && m[k := v][k] == v;
  }

  lemma {:induction false} StillInjective(m: map<Value, Value>, k: Value, v: Value)
    requires Injective(m) && k !in m && v !in m.Values
    ensures Injective(m[k := v])
  {
    var n := m[k := v];
    forall a, b | a in n && b in n && n[a] == n[b] ensures a == b { assert a != k ==> m[a] in m.Values; }
  }

  lemma {:induction false} BreakOne(inj: bool, ps: set<Pair>, broken: set<Pair>, m: map<Value, Value>, p: Pair,
                                    keys: set<Value>, vals: set<Value>, I: Interp) returns (n: map<Value, Value>)
    requires Odd(inj, ps, broken, m, I) && p !in broken && !TopsPairs(p, ps, I)
    requires Enough(inj, ps, |broken| + 1, keys, vals, I)
    ensures Odd(inj, ps, broken + {p}, n, I)
  {
    hide In;
    if Breaks(m, p, I) {
      n := m;
    } else if k :| In(k, Union(Doms(ps)), I) && !In(k, p.dom, I) {
      var v :| v in vals;
      if inj {
        ValuesFewer(m);
        v := Unused(vals, m.Values);
      }
      n := m[k := v];
      Extend(inj, ps, broken, m, p, k, v, I);
    } else {
      var v :| In(v, Union(Rngs(ps)), I) && !In(v, p.rng, I);
      var k := Unused(keys, m.Keys);
      assert v !in m.Values by { forall j | j in m ensures m[j] != v { assert In(m[j], p.rng, I); } }
      n := m[k := v];
      Extend(inj, ps, broken, m, p, k, v, I);
    }
  }

  lemma {:induction false} BreakAll(inj: bool, ps: set<Pair>, rest: set<Pair>, keys: set<Value>, vals: set<Value>,
                                    I: Interp)
      returns (m: map<Value, Value>)
    requires Enough(inj, ps, |rest|, keys, vals, I) && forall p :: p in rest ==> !TopsPairs(p, ps, I)
    ensures Odd(inj, ps, rest, m, I)
    decreases rest
  {
    hide In, TopsPairs;
    if rest == {} {
      m := map[];
    } else {
      var p :| p in rest;
      var before := BreakAll(inj, ps, rest - {p}, keys, vals, I);
      m := BreakOne(inj, ps, rest - {p}, before, p, keys, vals, I);
      assert rest - {p} + {p} == rest;
    }
  }

  /** Merging map types, given enough different keys (and, for injective maps, values): it changes
      nothing exactly when one map type already allows every key and every value. */
  lemma {:induction false} MapMergeExactIff(inj: bool, ps: set<Pair>, keys: set<Value>, vals: set<Value>, I: Interp)
    requires ps != {} && Enough(inj, ps, |ps|, keys, vals, I)
    ensures (forall v :: In(v, MergedMap(inj, ps), I) ==> InAMapOf(v, inj, ps, I))
            <==> exists top :: top in ps && TopsPairs(top, ps, I)
  {
    hide In, TopsPairs, InAMapOf;
    if top :| top in ps && TopsPairs(top, ps, I) {
      forall v | In(v, MergedMap(inj, ps), I) ensures InAMapOf(v, inj, ps, I) {
        ToppedMapIsExact(inj, top, ps, v, I);
      }
    } else {
      var m := BreakAll(inj, ps, ps, keys, vals, I);
      OddIsOutside(inj, ps, m, I);
    }
  }

  lemma {:induction false} OddIsOutside(inj: bool, ps: set<Pair>, m: map<Value, Value>, I: Interp)
    requires Odd(inj, ps, ps, m, I)
    ensures In(MapV(m), MergedMap(inj, ps), I) && !InAMapOf(MapV(m), inj, ps, I)
  {
    hide In;
    InMapType(inj, Union(Doms(ps)), Union(Rngs(ps)), m, I);
    forall p | p in ps ensures !In(MapV(m), MapType(inj, p.dom, p.rng), I) {
      assert Breaks(m, p, I);
      InMapType(inj, p.dom, p.rng, m, I);
    }
  }

  lemma {:induction false} InMapType(inj: bool, d: Type, r: Type, m: map<Value, Value>, I: Interp)
    ensures In(MapV(m), MapType(inj, d, r), I)
            <==> (inj ==> Injective(m)) && forall k :: k in m ==> In(k, d, I) && In(m[k], r, I)
  {
  }

  /** With a single key merging gains nothing although no range may contain the others. */
  lemma {:induction false} OneKeyMergesExactly(d: Type, ps: set<Pair>, m: map<Value, Value>, I: Interp)
    requires ps != {} && (forall p :: p in ps ==> p.dom == d) && forall a, b :: In(a, d, I) && In(b, d, I) ==> a == b
    requires In(MapV(m), MergedMap(false, ps), I)
    ensures InAMapOf(MapV(m), false, ps, I)
  {
    assert Doms(ps) == {d};
    InMapType(false, Union(Doms(ps)), Union(Rngs(ps)), m, I);
    var p :| p in ps;
    if k :| k in m {
      var r :| r in Rngs(ps) && In(m[k], r, I);
      p :| p in ps && p.rng == r;
      hide In;
      forall j | j in m ensures j == k { OnlyMember(j, d, I); OnlyMember(k, d, I); }
    }
    InMapType(false, p.dom, p.rng, m, I);
  }

  lemma {:induction false} OnlyMember(v: Value, d: Type, I: Interp)
    requires In(v, Union({d}), I)
    ensures In(v, d, I)
  {
  }
}
