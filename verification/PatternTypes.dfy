/**
 FindPatIdMap: the types of a pattern's identifiers, each expanded, flattened and rid of
 invariants once, if it is cyclic, and otherwise until nothing changes.
 */
module PatternTypes {
  import opened VdmValues
  import opened TypeReps
  import opened TypeNormaliser
  import opened TypeMeaning
  import opened TypeNormalForm
  import opened TypeOccurrences
  import opened TypeExpansion
  import opened TypeLookup
  import opened TypeRecursion
  import opened TypeCycles

  // ----- Rounds change no meaning but by merging -----

  /** Every name used is defined, and no chain of names closes. */
  ghost predicate Sound(env: Env, t: Type) { GroundedEnv(env) && AllGrounded(env, t) }

  /** The same values where names mean their definitions, function types what their parts do, and
      invariants hold. */
  ghost predicate Same(env: Env, t: Type, r: Type) {
    forall v, I :: Respects(I, env) && Extensional(I) && AllHold(I) ==> (In(v, r, I) <==> In(v, t, I))
  }

  lemma {:induction false} EnvPassExact(env: Env, t: Type)
    requires Sound(env, t) && NothingMerged(Expand(env, t, {}))
    ensures Same(env, t, EnvPass(env, t))
  {
    hide Clean, Expand, RemoveInv, In, NothingMerged, AllGrounded, GroundedEnv, Free, Extensional;
    var u := Expand(env, t, {});
    forall v, I | Respects(I, env) && Extensional(I) && AllHold(I)
      ensures In(v, EnvPass(env, t), I) <==> In(v, t, I)
    {
      ExpandExact(env, t, {}, v, I);
      CleanCovers(u, v, I);
      RemoveInvExact(Clean(u), v, I);
    }
  }

  lemma {:induction false} LeadsGrounded(env: Env, n: string, m: string, i: nat)
    requires GroundedEnv(env) && Grounded(env, n) && Leads(env, n, m, i)
    ensures Grounded(env, m)
    decreases i
  {
    hide At, Grounded, AllGrounded;
    if i > 0 {
      var x :| Uses(env, n, x) && Leads(env, x, m, i - 1);
      UsedIsGrounded(env, n, x);
      LeadsGrounded(env, x, m, i - 1);
    }
  }

  lemma {:induction false} UsedIsGrounded(env: Env, n: string, x: string)
    requires GroundedEnv(env) && Grounded(env, n) && Uses(env, n, x)
    ensures Grounded(env, x)
  {
    hide At;
    var m :| EndsAt(env, n, m);
    LOTIsDefinition(env, n, m);
    assert AllGrounded(env, env[m]);
  }

  lemma {:induction false} EnvPassSound(env: Env, t: Type)
    requires Sound(env, t)
    ensures Sound(env, EnvPass(env, t))
  {
    hide At, Expand, EnvPass, Grounded, GroundedEnv, Free;
    forall m, e: nat | At(Outside, EnvPass(env, t), m, e) ensures Grounded(env, m) {
      EnvPassAt(env, t, m, e);
      var n, d, i := ExpandLeads(env, t, {}, m, e);
      LeadsGrounded(env, n, m, i);
    }
  }

  /** Rounds in which no union merges collections of a kind change no meaning, apart from invariants. */
  lemma {:induction false} RoundsExact(env: Env, t: Type, n: nat)
    requires Sound(env, t) && forall i: nat :: i < n ==> NothingMerged(Expand(env, Rounds(env, t, i), {}))
    ensures Sound(env, Rounds(env, t, n)) && Same(env, t, Rounds(env, t, n))
  {
    hide Expand, EnvPass, NothingMerged, Sound, In;
    if n > 0 {
      RoundsExact(env, t, n - 1);
      EnvPassSound(env, Rounds(env, t, n - 1));
      EnvPassExact(env, Rounds(env, t, n - 1));
    }
  }

  // ----- The loop -----

  lemma {:induction false} WidensSelf(env: Env, t: Type)
    ensures Widens(env, t, t)
  {
  }

  lemma {:induction false} WidensTransitive(env: Env, a: Type, b: Type, c: Type)
    requires Widens(env, a, b) && Widens(env, b, c)
    ensures Widens(env, a, c)
  {
    hide In;
  }

  /** The loop, wherever it ends at all; TypeRecursion says where that is. */
  method RepeatUntilStable(env: Env, t: Type) returns (tp: Type, ghost n: nat)
    requires Settles(env, t)
    ensures tp == Rounds(env, t, n) && EnvPass(env, tp) == tp
    ensures forall i: nat :: i < n ==> Rounds(env, t, i + 1) != Rounds(env, t, i)
    ensures Free(NoNames, tp) ==> Flat(tp) && Bare(tp)
    ensures FirstOrderEnv(env) && Free(NoFunctions, t) ==> Widens(env, t, tp)
  {
    hide Clean, Expand, RemoveInv, EnvPass, Pass, Free, Widens;
    ghost var last: nat :| Rounds(env, t, last + 1) == Rounds(env, t, last);
    tp, n := t, 0;
    var newtp := EnvPass(env, tp);
    ghost var firstOrder := FirstOrderEnv(env) && Free(NoFunctions, t);
    assert firstOrder ==> Widens(env, t, t) by { WidensSelf(env, t); }
    while tp != newtp
      invariant tp == Rounds(env, t, n) && newtp == EnvPass(env, tp) && n <= last
      invariant forall i: nat :: i < n ==> Rounds(env, t, i + 1) != Rounds(env, t, i)
      invariant firstOrder ==> Free(NoFunctions, tp) && Widens(env, t, tp)
      decreases last - n
    {
      if firstOrder {
        EnvPassCovers(env, tp);
        WidensTransitive(env, t, tp, newtp);
      }
      assert newtp == Rounds(env, t, n + 1);
      tp, n := newtp, n + 1;
      newtp := EnvPass(env, tp);
    }
    if Free(NoNames, tp) {
      EnvPassNameFree(env, tp);
      StableIsNormalForm(tp);
    }
  }

  // ----- All identifiers -----

  /** The type is a name that leads back to itself. */
  ghost predicate Circular(env: Env, t: Type) { t.Named? && LeadsBack(env, t.name) }

  /** Nothing more happens to r, and without names in it it is in normal form. */
  ghost predicate Stable(env: Env, r: Type) {
    EnvPass(env, r) == r && (Free(NoNames, r) ==> Flat(r) && Bare(r))
  }

  /** What one identifier's type ends as: one round of a circular type, the stable type of any other. */
  ghost predicate Settled(env: Env, t: Type, r: Type) {
    && (exists n: nat :: r == Rounds(env, t, n))
    && (!Circular(env, t) ==> Stable(env, r))
    && (Circular(env, t) && OwnInvariants(env) ==> r == EnvPass(env, t))
    && (FirstOrderEnv(env) && Free(NoFunctions, t) ==> Widens(env, t, r))
  }

  lemma {:induction false} CyclicIsCircular(env: Env, t: Type)
    ensures IsCyclicTypeRep(env, t) ==> Circular(env, t)
    ensures OwnInvariants(env) ==> (IsCyclicTypeRep(env, t) <==> Circular(env, t))
  {
    hide LeadsBack, OwnInvariants, CleanFlatType, Mentions;
    if t.Named? {
      if IsCyclicTypeRep(env, t) { CyclicLeadsBack(env, t.name); }
      if OwnInvariants(env) { CyclicIffLeadsBack(env, t.name); }
    }
  }

  method FindPatIdMap(env: Env, pidM: map<string, Type>) returns (resM: map<string, Type>)
    requires forall nm :: nm in pidM ==> IsCyclicTypeRep(env, pidM[nm]) || Settles(env, pidM[nm])
    ensures resM.Keys == pidM.Keys
    ensures forall nm :: nm in pidM ==> Settled(env, pidM[nm], resM[nm])
  {
    hide Clean, Expand, RemoveInv, EnvPass, Free, Flat, Bare, Widens, IsCyclicTypeRep, Circular, OwnInvariants;
    resM := map[];
    var todo := pidM.Keys;
    while todo != {}
      invariant todo <= pidM.Keys && resM.Keys == pidM.Keys - todo
      invariant forall nm :: nm in resM ==> Settled(env, pidM[nm], resM[nm])
      decreases todo
    {
      var nm :| nm in todo;
      var tp := pidM[nm];
      CyclicIsCircular(env, tp);
      if IsCyclicTypeRep(env, tp) {
        if FirstOrderEnv(env) && Free(NoFunctions, tp) { EnvPassCovers(env, tp); }
        assert Rounds(env, tp, 0) == tp && Rounds(env, tp, 1) == EnvPass(env, tp);
        tp := EnvPass(env, tp);
      } else {
        ghost var n;
        tp, n := RepeatUntilStable(env, tp);
      }
      assert Settled(env, pidM[nm], tp);
      resM, todo := resM[nm := tp], todo - {nm};
    }
  }

  /** When all of it ends, in terms of the definitions alone. */
  lemma {:induction false} FindPatIdMapEndsIff(env: Env, pidM: map<string, Type>)
    requires OwnInvariants(env) && forall nm :: nm in pidM ==> NoneIdles(env, pidM[nm])
    ensures (forall nm :: nm in pidM ==> IsCyclicTypeRep(env, pidM[nm]) || Settles(env, pidM[nm]))
            <==> forall nm :: nm in pidM ==> Circular(env, pidM[nm]) || NoneRecurs(env, pidM[nm])
  {
    hide IsCyclicTypeRep, Circular, Settles, NoneRecurs, NoneIdles, OwnInvariants;
    forall nm | nm in pidM
      ensures IsCyclicTypeRep(env, pidM[nm]) <==> Circular(env, pidM[nm])
      ensures Settles(env, pidM[nm]) <==> NoneRecurs(env, pidM[nm])
    {
      CyclicIsCircular(env, pidM[nm]);
      SettlesIffNothingRecurs(env, pidM[nm]);
    }
  }
}
