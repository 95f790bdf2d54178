/**
 Which types IsCyclicTypeRep calls cyclic: a name that leads back to itself, through the
 definitions of other names or into the fields of a composite.
 */
module TypeCycles {
  import opened TypeReps
  import opened TypeNormaliser
  import opened TypeOccurrences
  import opened TypeExpansion
  import opened TypeRecursion

  ghost predicate Names(w: Where, t: Type, n: string) { exists d: nat :: At(w, t, n, d) }

  /** Some composite in t, outside other composites, mentions n in a field. */
  ghost predicate InFields(t: Type, n: string)
    decreases t
  {
    if t.Composite? then exists f :: f in t.fields && Names(Everywhere, f, n)
    else exists p :: p in Parts(Outside, t) && InFields(p, n)
  }

  /** n leads back to itself: through definitions, or into a composite field of a type so reached. */
  ghost predicate LeadsBack(env: Env, n: string) {
    LeadsTo(env, n, n) || exists m, i: nat :: Leads(env, n, m, i) && InFields(Def(env, m), n)
  }

  // ----- Mentioning a name -----

  lemma {:induction false} NamesByParts(w: Where, t: Type, n: string)
    requires !t.Named?
    ensures Names(w, t, n) <==> exists p :: p in Parts(w, t) && Names(w, p, n)
  {
    hide At, Parts;
    if d: nat :| At(w, t, n, d) { var p := AtPart(w, t, n, d); }
    if p :| p in Parts(w, t) && Names(w, p, n) {
      var d: nat :| At(w, p, n, d);
      PartAt(w, t, p, n, d);
    }
  }

  lemma {:induction false} MentionsByParts(t: Type, n: string)
    requires !t.Named?
    ensures Mentions(n, t) <==> exists p :: p in Parts(Everywhere, t) && Mentions(n, p)
  {
    match t
    case MapOf(d, r) => assert d in Parts(Everywhere, t) && r in Parts(Everywhere, t);
    case InjMapOf(d, r) => assert d in Parts(Everywhere, t) && r in Parts(Everywhere, t);
    case EmptyMap(d, r) => assert d in Parts(Everywhere, t) && r in Parts(Everywhere, t);
    case Fn(_, ps, r) => assert r in Parts(Everywhere, t) && forall p :: p in ps ==> p in Parts(Everywhere, t);
    case Inv(_, s) => assert s in Parts(Everywhere, t);
    case SetOf(e) => assert e in Parts(Everywhere, t);
    case EmptySet(e) => assert e in Parts(Everywhere, t);
    case SeqOf(e) => assert e in Parts(Everywhere, t);
    case EmptySeq(e) => assert e in Parts(Everywhere, t);
    case Product(ps) => assert forall p :: p in ps ==> p in Parts(Everywhere, t);
    case Composite(_, fs) => assert forall p :: p in fs ==> p in Parts(Everywhere, t);
    case _ =>
  }

  lemma {:induction false} MentionsIsNames(t: Type, n: string)
    ensures Mentions(n, t) <==> Names(Everywhere, t, n)
    decreases t
  {
    if t.Named? {
      NameAt(Everywhere, t.name);
      if d: nat :| At(Everywhere, t, n, d) { OnlyNameAt(Everywhere, t.name, n, d); }
    } else {
      MentionsByParts(t, n);
      NamesByParts(Everywhere, t, n);
      forall p | p in Parts(Everywhere, t) { MentionsIsNames(p, n); }
    }
  }

  lemma {:induction false} SamePartsOutside(t: Type)
    ensures !t.Composite? ==> Parts(Everywhere, t) == Parts(Outside, t)
    ensures t.Composite? ==> Parts(Outside, t) == {} && Parts(Everywhere, t) == set f | f in t.fields
  {
  }

  /** A mention is outside composites or in one's field. */
  lemma {:induction false} OutsideOrInFields(t: Type, n: string)
    ensures Names(Everywhere, t, n) <==> Names(Outside, t, n) || InFields(t, n)
    decreases t
  {
    hide At, Parts;
    SamePartsOutside(t);
    if t.Named? {
      NameAt(Everywhere, t.name);
      NameAt(Outside, t.name);
      if d: nat :| At(Everywhere, t, n, d) { OnlyNameAt(Everywhere, t.name, n, d); }
      if d: nat :| At(Outside, t, n, d) { OnlyNameAt(Outside, t.name, n, d); }
      NoPartsInName(t);
    } else {
      NamesByParts(Everywhere, t, n);
      NamesByParts(Outside, t, n);
      OutsideOrInFieldsOfParts(t, n);
    }
  }

  lemma {:induction false} OutsideOrInFieldsOfParts(t: Type, n: string)
    requires !t.Named?
    ensures !t.Composite? ==>
              forall p :: p in Parts(Outside, t)
                  ==> (Names(Everywhere, p, n) <==> Names(Outside, p, n) || InFields(p, n))
    decreases t, 0
  {
    forall p | p in Parts(Outside, t) { OutsideOrInFields(p, n); }
  }

  lemma {:induction false} NoPartsInName(t: Type)
    requires t.Named?
    ensures forall w :: Parts(w, t) == {}
  {
  }

  // ----- What is called cyclic leads back -----

  /** A composite that mentions n in an expanded type was there before, or in the definition of a
      name that a name of the type leads to. */
  lemma {:induction false} ExpandFields(env: Env, t: Type, nms: set<string>, n: string)
      returns (x: string, d: nat, i: nat, y: string)
    requires InFields(Expand(env, t, nms), n)
    ensures InFields(t, n) || (At(Outside, t, x, d) && Leads(env, x, y, i) && InFields(Def(env, y), n))
    decreases env.Keys - nms, t
  {
    hide At, Def, Expand, Leads, Uses, InFields;
    x, d, i, y := "", 0, 0, "";
    if t.Named? {
      x := t.name;
      NameAt(Outside, x);
      ExpandName(env, x, nms);
      if x !in nms {
        if x !in env { NoFieldsInAll(env, nms + {x}, n); }
        assert x in env.Keys - nms;
        var z, e, j, v := ExpandFields(env, Def(env, x), nms + {x}, n);
        if InFields(Def(env, x), n) {
          assert Leads(env, x, x, 0) by { Stays(env, x); }
          y := x;
        } else {
          assert Uses(env, x, z) by { UsesAt(env, x, z, e); }
          LeadsOne(env, x, z);
          LeadsOn(env, x, z, v, 1, j);
          i, y := 1 + j, v;
        }
      }
    } else if !t.Composite? {
      var inner := if t.Inv? then nms + {t.name} else nms;
      ExpandNode(env, t, nms, inner);
      ExpandKeepsKind(env, t, nms);
      var q := FieldPart(Expand(env, t, nms), n);
      var p :| p in Parts(Outside, t) && q == Expand(env, p, inner);
      x, d, i, y := ExpandFields(env, p, inner, n);
      if InFields(p, n) {
        PartField(t, p, n);
      } else {
        PartAt(Outside, t, p, x, d);
        d := d + Step(t);
      }
    } else {
      ExpandKeepsKind(env, t, nms);
    }
  }

  lemma {:induction false} Stays(env: Env, x: string)
    ensures Leads(env, x, x, 0)
  {
  }

  lemma {:induction false} UsesAt(env: Env, a: string, b: string, d: nat)
    requires At(Outside, Def(env, a), b, d)
    ensures Uses(env, a, b)
  {
  }

  lemma {:induction false} FieldPart(t: Type, n: string) returns (p: Type)
    requires InFields(t, n) && !t.Composite?
    ensures p in Parts(Outside, t) && InFields(p, n)
  {
    p :| p in Parts(Outside, t) && InFields(p, n);
  }

  lemma {:induction false} PartField(t: Type, p: Type, n: string)
    requires p in Parts(Outside, t) && InFields(p, n) && !t.Composite?
    ensures InFields(t, n)
  {
  }

  lemma {:induction false} NoFieldsInAll(env: Env, nms: set<string>, n: string)
    ensures !InFields(Expand(env, All, nms), n)
  {
  }

  lemma {:induction false} ExpandKeepsKind(env: Env, t: Type, nms: set<string>)
    ensures t.Composite? ==> Expand(env, t, nms) == t
    ensures !t.Composite? && !t.Named? ==> !Expand(env, t, nms).Composite?
  {
  }

  lemma {:induction false} CyclicIsMentioned(env: Env, n: string)
    ensures IsCyclicTypeRep(env, Named(n)) <==> Names(Everywhere, Expand(env, Named(n), {}), n)
  {
    hide At, Expand, Mentions, Clean;
    var t := Expand(env, Named(n), {});
    MentionsIsNames(Clean(t), n);
    forall d: nat ensures At(Everywhere, Clean(t), n, d) <==> At(Everywhere, t, n, d) {
      CleanKeepsAt(Everywhere, t, n, d);
    }
  }

  /** In every environment, whatever is called cyclic leads back to itself. */
  lemma {:induction false} CyclicLeadsBack(env: Env, n: string)
    requires IsCyclicTypeRep(env, Named(n))
    ensures LeadsBack(env, n)
  {
    hide At, Expand, IsCyclicTypeRep, Def, InFields;
    var t := Expand(env, Def(env, n), {} + {n});
    CyclicIsMentioned(env, n);
    ExpandName(env, n, {});
    OutsideOrInFields(t, n);
    if e: nat :| At(Outside, t, n, e) {
      var x, d, i := ExpandLeads(env, Def(env, n), {} + {n}, n, e);
      assert Uses(env, n, x);
      assert Leads(env, n, n, i + 1);
    } else {
      var x, d, i, y := ExpandFields(env, Def(env, n), {} + {n}, n);
      if InFields(Def(env, n), n) {
        assert Leads(env, n, n, 0);
      } else {
        assert Uses(env, n, x);
        assert Leads(env, n, y, i + 1);
      }
    }
  }

  // ----- What leads back is called cyclic -----

  /** An invariant type stands only as the definition of its own name, as the type checker builds it. */
  ghost predicate OwnInvariant(env: Env, n: string) {
    var t := Def(env, n);
    if t.Inv? then Def(env, t.name) == t && NoInv(t.shape) else NoInv(t)
  }

  ghost predicate OwnInvariants(env: Env) { forall n :: OwnInvariant(env, n) }

  /** The definition of x mentions n. */
  ghost predicate Hit(env: Env, n: string, x: string) { Uses(env, x, n) || InFields(Def(env, x), n) }

  /** At most i definitions lead from x to one that mentions n. */
  ghost predicate Within(env: Env, n: string, x: string, i: nat)
    decreases i
  {
    Hit(env, n, x) || (i > 0 && exists m :: Uses(env, x, m) && Within(env, n, m, i - 1))
  }

  lemma {:induction false} WithinMono(env: Env, n: string, x: string, i: nat)
    requires Within(env, n, x, i)
    ensures Within(env, n, x, i + 1)
    decreases i
  {
    hide Hit, Uses;
    if !Hit(env, n, x) {
      var m :| Uses(env, x, m) && Within(env, n, m, i - 1);
      WithinMono(env, n, m, i - 1);
    }
  }

  /** Only the definition of the name matters. */
  lemma {:induction false} WithinByDef(env: Env, n: string, x: string, y: string, i: nat)
    requires Def(env, x) == Def(env, y) && Within(env, n, x, i)
    ensures Within(env, n, y, i)
  {
    hide At, InFields, Def;
    if m :| i > 0 && Uses(env, x, m) && Within(env, n, m, i - 1) { assert Uses(env, y, m); }
    if Hit(env, n, x) { assert Hit(env, n, y); }
  }

  lemma {:induction false} LeadsWithin(env: Env, n: string, x: string, m: string, i: nat)
    requires Leads(env, x, m, i) && Hit(env, n, m)
    ensures Within(env, n, x, i)
    decreases i
  {
    hide Hit, Uses;
    if i > 0 {
      var y :| Uses(env, x, y) && Leads(env, y, m, i - 1);
      LeadsWithin(env, n, y, m, i - 1);
    }
  }

  lemma {:induction false} LastStep(env: Env, a: string, b: string, i: nat) returns (m: string)
    requires i > 0 && Leads(env, a, b, i)
    ensures Leads(env, a, m, i - 1) && Uses(env, m, b)
    decreases i
  {
    hide Uses;
    var y :| Uses(env, a, y) && Leads(env, y, b, i - 1);
    if i == 1 {
      m := a;
    } else {
      m := LastStep(env, y, b, i - 1);
    }
  }

  lemma {:induction false} LeadsBackWithin(env: Env, n: string) returns (i: nat)
    requires LeadsBack(env, n)
    ensures Within(env, n, n, i)
  {
    hide Uses, InFields, Leads, Def;
    if LeadsTo(env, n, n) {
      var j: nat :| j > 0 && Leads(env, n, n, j);
      var m := LastStep(env, n, n, j);
      LeadsWithin(env, n, n, m, j - 1);
      i := j - 1;
    } else {
      var m;
      m, i :| Leads(env, n, m, i) && InFields(Def(env, m), n);
      LeadsWithin(env, n, n, m, i);
    }
  }

  /** Where m stands in t, what its expansion mentions is mentioned. */
  lemma {:induction false} SpreadsNames(env: Env, t: Type, nms: set<string>, m: string, d: nat, n: string)
    requires At(Outside, t, m, d) && NoInv(t) && Names(Everywhere, Expand(env, Named(m), nms), n)
    ensures Names(Everywhere, Expand(env, t, nms), n)
    decreases t
  {
    hide At, Expand;
    if t.Named? {
      OnlyNameAt(Outside, t.name, m, d);
    } else {
      var p := AtPart(Outside, t, m, d);
      SpreadsNames(env, p, nms, m, d - Step(t), n);
      ExpandNode(env, t, nms, nms);
      PartOutside(Expand(env, t, nms), Expand(env, p, nms));
      NamesByParts(Everywhere, Expand(env, t, nms), n);
    }
  }

  lemma {:induction false} PartOutside(t: Type, p: Type)
    requires p in Parts(Outside, t)
    ensures p in Parts(Everywhere, t)
  {
  }

  lemma {:induction false} SpreadsFields(env: Env, t: Type, nms: set<string>, n: string)
    requires InFields(t, n) && NoInv(t)
    ensures Names(Everywhere, Expand(env, t, nms), n)
    decreases t
  {
    hide At, Expand;
    ExpandKeepsKind(env, t, nms);
    if t.Composite? {
      SamePartsOutside(t);
      NamesByParts(Everywhere, t, n);
    } else {
      NoPartsInNames(t);
      var p :| p in Parts(Outside, t) && InFields(p, n);
      SpreadsFields(env, p, nms, n);
      ExpandNode(env, t, nms, nms);
      PartOutside(Expand(env, t, nms), Expand(env, p, nms));
      NamesByParts(Everywhere, Expand(env, t, nms), n);
    }
  }

  lemma {:induction false} NoPartsInNames(t: Type)
    ensures t.Named? ==> Parts(Outside, t) == {}
  {
  }

  /** The definition without its invariant, and what is blocked in it. */
  lemma {:induction false} UnderInvariant(env: Env, x: string, vis: set<string>, n: string)
      returns (s: Type, blocked: set<string>)
    requires OwnInvariant(env, x) && x !in vis
    ensures NoInv(s) && vis + {x} <= blocked && (InFields(Def(env, x), n) ==> InFields(s, n))
    ensures forall y :: y in blocked ==> y in vis || Def(env, y) == Def(env, x)
    ensures forall m, d: nat :: At(Outside, Def(env, x), m, d) <==> At(Outside, s, m, d)
    ensures Names(Everywhere, Expand(env, s, blocked), n) ==> Names(Everywhere, Expand(env, Named(x), vis), n)
  {
    hide Expand, Def;
    var t := Def(env, x);
    ExpandName(env, x, vis);
    if t.Inv? {
      s, blocked := t.shape, vis + {x} + {t.name};
      ExpandInv(env, t, vis + {x});
      NamesByParts(Everywhere, Expand(env, t, vis + {x}), n);
      assert Parts(Outside, t) == {s};
    } else {
      s, blocked := t, vis + {x};
    }
  }

  lemma {:induction false} ExpandInv(env: Env, t: Type, nms: set<string>)
    requires t.Inv?
    ensures var u := Expand(env, t, nms);
            !u.Named? && Parts(Everywhere, u) == {Expand(env, t.shape, nms + {t.name})}
  {
  }

  /** However many farther names are blocked, expanding x comes to n. */
  lemma {:induction false} Comes(env: Env, n: string, x: string, vis: set<string>, i: nat)
    requires OwnInvariants(env) && Within(env, n, x, i) && x !in vis && n in vis + {x}
    requires forall b :: b in vis ==> !Within(env, n, b, i)
    ensures Names(Everywhere, Expand(env, Named(x), vis), n)
    decreases i
  {
    hide At, Expand, Within, InFields, Def, NoInv;
    if i > 0 && Within(env, n, x, i - 1) {
      forall b | b in vis ensures !Within(env, n, b, i - 1) {
        if Within(env, n, b, i - 1) { WithinMono(env, n, b, i - 1); }
      }
      Comes(env, n, x, vis, i - 1);
    } else {
      assert OwnInvariant(env, x);
      var s, blocked := UnderInvariant(env, x, vis, n);
      if Hit(env, n, x) {
        if d: nat :| At(Outside, Def(env, x), n, d) {
          ExpandName(env, n, blocked);
          NameAt(Everywhere, n);
          SpreadsNames(env, s, blocked, n, d, n);
        } else {
          SpreadsFields(env, s, blocked, n);
        }
      } else {
        var m := NextWithin(env, n, x, i);
        var d: nat :| At(Outside, Def(env, x), m, d);
        forall b | b in blocked ensures !Within(env, n, b, i - 1) { StillFarther(env, n, x, b, vis, i); }
        Comes(env, n, m, blocked, i - 1);
        SpreadsNames(env, s, blocked, m, d, n);
      }
    }
  }

  lemma {:induction false} NextWithin(env: Env, n: string, x: string, i: nat) returns (m: string)
    requires Within(env, n, x, i) && !Hit(env, n, x)
    ensures i > 0 && Uses(env, x, m) && Within(env, n, m, i - 1)
  {
    hide Uses, Hit;
    m :| Uses(env, x, m) && Within(env, n, m, i - 1);
  }

  lemma {:induction false} StillFarther(env: Env, n: string, x: string, b: string, vis: set<string>, i: nat)
    requires i > 0 && !Within(env, n, x, i - 1) && (b in vis || Def(env, b) == Def(env, x))
    requires b in vis ==> !Within(env, n, b, i)
    ensures !Within(env, n, b, i - 1)
  {
    hide Within, Def;
    if Within(env, n, b, i - 1) {
      WithinMono(env, n, b, i - 1);
      if b !in vis { WithinByDef(env, n, b, x, i - 1); }
    }
  }

  /** Exactly the names that lead back to themselves are called cyclic. */
  lemma {:induction false} CyclicIffLeadsBack(env: Env, n: string)
    requires OwnInvariants(env)
    ensures IsCyclicTypeRep(env, Named(n)) <==> LeadsBack(env, n)
  {
    hide IsCyclicTypeRep, LeadsBack, Within, Expand, At, OwnInvariant;
    if LeadsBack(env, n) {
      var i := LeadsBackWithin(env, n);
      Comes(env, n, n, {}, i);
      CyclicIsMentioned(env, n);
    } else if IsCyclicTypeRep(env, Named(n)) {
      CyclicLeadsBack(env, n);
    }
  }

  const FOREIGN_INVARIANT: Env := map["N" := Inv("M", Named("M")), "M" := SetOf(Named("N"))]

  /** An invariant type under another name than its own would block that name and hide a cycle. */
  lemma {:induction false} ForeignInvariantHidesCycle()
    ensures LeadsBack(FOREIGN_INVARIANT, "N") && !IsCyclicTypeRep(FOREIGN_INVARIANT, Named("N"))
  {
    hide LeadsBack, IsCyclicTypeRep;
    ForeignLeadsBack();
    ForeignIsNotCyclic();
  }

  lemma {:induction false} ForeignLeadsBack()
    ensures LeadsBack(FOREIGN_INVARIANT, "N")
  {
    var env := FOREIGN_INVARIANT;
    ForeignDefs();
    hide Def;
    NameAt(Outside, "M");
    NameAt(Outside, "N");
    PartAt(Outside, Inv("M", Named("M")), Named("M"), "M", 0);
    PartAt(Outside, SetOf(Named("N")), Named("N"), "N", 0);
    hide At, InFields;
    assert Uses(env, "N", "M") && Uses(env, "M", "N");
    LeadsOne(env, "N", "M");
    LeadsOne(env, "M", "N");
    LeadsOn(env, "N", "M", "N", 1, 1);
  }

  lemma {:induction false} ForeignIsNotCyclic()
    ensures !IsCyclicTypeRep(FOREIGN_INVARIANT, Named("N"))
  {
    var env, t := FOREIGN_INVARIANT, Inv("M", Named("M"));
    assert Parts(Everywhere, t) == {Named("M")};
    hide IsCyclicTypeRep, At, Parts, Expand;
    ForeignExpands();
    CyclicIsMentioned(env, "N");
    NamesByParts(Everywhere, t, "N");
    if d: nat :| At(Everywhere, Named("M"), "N", d) { OnlyNameAt(Everywhere, "M", "N", d); }
  }

  lemma {:induction false} ForeignDefs()
    ensures Def(FOREIGN_INVARIANT, "N") == Inv("M", Named("M")) && Def(FOREIGN_INVARIANT, "M") == SetOf(Named("N"))
  {
    var env := FOREIGN_INVARIANT;
    assert LOThelp(env, env["N"], {} + {"N"}) == env["N"] && LOThelp(env, env["M"], {} + {"M"}) == env["M"];
    assert LOThelp(env, Named("N"), {}) == LOThelp(env, env["N"], {} + {"N"});
    assert LOThelp(env, Named("M"), {}) == LOThelp(env, env["M"], {} + {"M"});
  }

  lemma {:induction false} ForeignExpands()
    ensures Expand(FOREIGN_INVARIANT, Named("N"), {}) == Inv("M", Named("M"))
  {
    var env, t := FOREIGN_INVARIANT, Inv("M", Named("M"));
    ForeignDefs();
    ExpandName(env, "N", {});
    ExpandName(env, "M", {} + {"N"} + {"M"});
    assert Expand(env, t, {} + {"N"}) == Inv("M", Expand(env, Named("M"), {} + {"N"} + {"M"}));
  }
}
