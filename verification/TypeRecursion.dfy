/**
 When the repeat-until-stable loop of FindPatIdMap ends. A name that leads to a cycle
 of definitions with a set, sequence, map, product or function type on it makes the type
 grow for ever; without such a name, and without cycles through nothing but unions and
 invariants, the loop ends.
 */
module TypeRecursion {
  import opened TypeReps
  import opened TypeNormaliser
  import opened TypeNormalForm
  import opened TypeOccurrences
  import opened TypeExpansion

  // ----- One round -----

  /** One round: every name of the new type is one that expansion left, at its depth. */
  lemma {:induction false} EnvPassAt(env: Env, t: Type, n: string, d: nat)
    ensures At(Outside, EnvPass(env, t), n, d) <==> At(Outside, Expand(env, t, {}), n, d)
    ensures NoInv(EnvPass(env, t))
  {
    hide At, Clean, RemoveInv, Expand;
    CleanKeepsAt(Outside, Expand(env, t, {}), n, d);
    RemoveInvKeepsAt(CleanFlatType(env, t), n, d);
    RemoveInvHasNoInv(CleanFlatType(env, t));
  }

  // ----- What expansion puts in the place of a name -----

  /** What a name stands for: the end of its chain of names, never a name itself. */
  function Def(env: Env, n: string): (r: Type)
    ensures !r.Named?
    ensures n !in env ==> r == All
  {
    LOT(env, Named(n))
  }

  lemma {:induction false} ExpandParts(env: Env, ps: seq<Type>, nms: set<string>)
    ensures (set q | q in ExpandAll(env, ps, nms)) == set p | p in ps :: Expand(env, p, nms)
  {
    hide Expand;
    var us := ExpandAll(env, ps, nms);
    forall p | p in ps ensures Expand(env, p, nms) in us {
      var i :| 0 <= i < |ps| && ps[i] == p;
      assert us[i] == Expand(env, p, nms);
    }
    forall q | q in us ensures exists p :: p in ps && q == Expand(env, p, nms) {
      var i :| 0 <= i < |us| && us[i] == q;
      assert ps[i] in ps;
    }
  }

  lemma {:induction false} ExpandNode(env: Env, t: Type, nms: set<string>, inner: set<string>)
    requires !t.Named? && inner == if t.Inv? then nms + {t.name} else nms
    ensures var u := Expand(env, t, nms);
            !u.Named? && Step(u) == Step(t)
                && Parts(Outside, u) == set p | p in Parts(Outside, t) :: Expand(env, p, inner)
  {
    match t
    case Product(ps) => ExpandParts(env, ps, nms);
    case Fn(_, ps, _) => ExpandParts(env, ps, nms);
    case Union(ts) => assert Expand(env, t, nms) == Union(ExpandEach(env, t, nms));
    case _ =>
  }

  lemma {:induction false} ExpandName(env: Env, n: string, nms: set<string>)
    ensures Expand(env, Named(n), nms) == if n in nms then Named(n) else Expand(env, Def(env, n), nms + {n})
  {
  }

  lemma {:induction false} PartSpreads(env: Env, t: Type, p: Type, nms: set<string>, inner: set<string>, m: string,
                                       e: nat)
    requires !t.Named? && p in Parts(Outside, t) && inner == if t.Inv? then nms + {t.name} else nms
    requires At(Outside, Expand(env, p, inner), m, e)
    ensures At(Outside, Expand(env, t, nms), m, Step(t) + e)
  {
    hide At, Expand;
    ExpandNode(env, t, nms, inner);
    PartAt(Outside, Expand(env, t, nms), Expand(env, p, inner), m, e);
  }

  /** A name deep in t is expanded there, with the names around it blocked. */
  lemma {:induction false} Spread(env: Env, t: Type, nms: set<string>, n: string, d: nat) returns (vis: set<string>)
    requires At(Outside, t, n, d)
    ensures nms <= vis && (NoInv(t) ==> vis == nms)
    ensures forall m, e: nat :: At(Outside, Expand(env, Named(n), vis), m, e) ==>
              At(Outside, Expand(env, t, nms), m, d + e)
    decreases t
  {
    hide At, Expand;
    if t.Named? {
      OnlyNameAt(Outside, t.name, n, d);
      vis := nms;
    } else {
      var p := AtPart(Outside, t, n, d);
      var inner := if t.Inv? then nms + {t.name} else nms;
      vis := Spread(env, p, inner, n, d - Step(t));
      forall m, e: nat | At(Outside, Expand(env, Named(n), vis), m, e)
        ensures At(Outside, Expand(env, t, nms), m, d + e)
      {
        PartSpreads(env, t, p, nms, inner, m, d - Step(t) + e);
      }
    }
  }

  // ----- Cycles of definitions -----

  ghost predicate Uses(env: Env, a: string, b: string) { exists d: nat :: At(Outside, Def(env, a), b, d) }

  /** i definitions lead from a to b. */
  ghost predicate Leads(env: Env, a: string, b: string, i: nat)
    decreases i
  {
    if i == 0 then a == b else exists m :: Uses(env, a, m) && Leads(env, m, b, i - 1)
  }

  /** The same through unions and invariants only. */
  ghost predicate LeadsIdly(env: Env, a: string, b: string, i: nat)
    decreases i
  {
    if i == 0 then a == b else exists m :: At(Outside, Def(env, a), m, 0) && LeadsIdly(env, m, b, i - 1)
  }

  /** b stands below a constructor in the definition of a, and leads back to a. */
  ghost predicate OnGrowingCycle(env: Env, a: string, b: string, d: nat, j: nat) {
    d > 0 && At(Outside, Def(env, a), b, d) && Leads(env, b, a, j)
  }

  /** n leads to a cycle of definitions that passes through a constructor. */
  ghost predicate Recurs(env: Env, n: string) {
    exists a, b, d: nat, i: nat, j: nat :: Leads(env, n, a, i) && OnGrowingCycle(env, a, b, d, j)
  }

  /** n leads to a cycle of definitions that passes through nothing but unions and invariants. */
  ghost predicate Idles(env: Env, n: string) {
    exists a, i: nat, j: nat :: Leads(env, n, a, i) && j > 0 && LeadsIdly(env, a, a, j)
  }

  ghost predicate NoneRecurs(env: Env, t: Type) { forall n, d: nat :: At(Outside, t, n, d) ==> !Recurs(env, n) }

  ghost predicate NoneIdles(env: Env, t: Type) { forall n, d: nat :: At(Outside, t, n, d) ==> !Idles(env, n) }

  lemma {:induction false} RecursStep(env: Env, n: string) returns (m: string, d: nat)
    requires Recurs(env, n)
    ensures At(Outside, Def(env, n), m, d) && Recurs(env, m) && n in env
  {
    hide At, Def;
    var a, b, e: nat, i: nat, j: nat :| Leads(env, n, a, i) && OnGrowingCycle(env, a, b, e, j);
    if i == 0 {
      m, d := b, e;
      assert Leads(env, b, a, j);
    } else {
      m :| Uses(env, n, m) && Leads(env, m, a, i - 1);
      d :| At(Outside, Def(env, n), m, d);
    }
    if n !in env { NothingInAll(env, n, m, d); }
  }

  lemma {:induction false} NothingInAll(env: Env, n: string, m: string, d: nat)
    requires n !in env
    ensures !At(Outside, Def(env, n), m, d)
  {
  }

  /** However many names are blocked, expanding a recursive name leaves a recursive name. */
  lemma {:induction false} Survivor(env: Env, n: string, nms: set<string>) returns (m: string, d: nat)
    requires Recurs(env, n)
    ensures At(Outside, Expand(env, Named(n), nms), m, d) && Recurs(env, m)
    decreases env.Keys - nms
  {
    hide Expand, Def, Recurs;
    ExpandName(env, n, nms);
    if n in nms {
      m, d := n, 0;
    } else {
      hide At;
      var m1, d1 := RecursStep(env, n);
      assert n in env.Keys - nms;
      var vis := Spread(env, Def(env, n), nms + {n}, m1, d1);
      var m2, d2 := Survivor(env, m1, vis);
      m, d := m2, d1 + d2;
    }
  }

  // ----- A type with a recursive name never settles -----

  lemma {:induction false} RecursionSurvives(env: Env, t: Type)
    requires !NoneRecurs(env, t)
    ensures !NoneRecurs(env, EnvPass(env, t))
  {
    hide At, Recurs, Expand, EnvPass;
    var n, d: nat :| At(Outside, t, n, d) && Recurs(env, n);
    var vis := Spread(env, t, {}, n, d);
    var m, e := Survivor(env, n, vis);
    EnvPassAt(env, t, m, d + e);
  }

  /** With the names in vis blocked, expanding x leaves recursive names at its own depth only,
      and t has them at depth top. */
  ghost predicate Calm(env: Env, t: Type, top: nat, x: string, vis: set<string>) {
    && x !in vis
    && forall y, e: nat ::
         At(Outside, Expand(env, Named(x), vis), y, e) && Recurs(env, y) ==> e == 0 && At(Outside, t, y, top)
  }

  /** No recursive name in t is deeper than top. */
  ghost predicate Top(env: Env, t: Type, top: nat) {
    forall n, d: nat :: At(Outside, t, n, d) && Recurs(env, n) ==> d <= top
  }

  lemma {:induction false} CalmAtTop(env: Env, t: Type, top: nat, x: string)
    requires EnvPass(env, t) == t && Top(env, t, top) && At(Outside, t, x, top)
    ensures Calm(env, t, top, x, {})
  {
    hide At, Recurs, Expand, EnvPass;
    EnvPassAt(env, t, x, top);
    var vis := Spread(env, t, {}, x, top);
    forall y, e: nat | At(Outside, Expand(env, Named(x), {}), y, e) && Recurs(env, y)
      ensures e == 0 && At(Outside, t, y, top)
    {
      EnvPassAt(env, t, y, top + e);
    }
  }

  lemma {:induction false} CalmStep(env: Env, t: Type, top: nat, x: string, vis: set<string>, y: string, e: nat)
      returns (vis': set<string>)
    requires EnvPass(env, t) == t && Top(env, t, top) && Calm(env, t, top, x, vis)
    requires At(Outside, Def(env, x), y, e) && Recurs(env, y)
    ensures e == 0 && Calm(env, t, top, y, vis')
  {
    hide At, Recurs, Expand, EnvPass, Def, Top;
    ExpandName(env, x, vis);
    vis' := Spread(env, Def(env, x), vis + {x}, y, e);
    var z, f := Survivor(env, y, vis');
    if y in vis' {
      NameAt(Outside, y);
      ExpandName(env, y, vis');
      assert At(Outside, Expand(env, Named(x), vis), y, e + 0);
      CalmAtTop(env, t, top, y);
      vis' := {};
    } else {
      forall u, g: nat | At(Outside, Expand(env, Named(y), vis'), u, g) && Recurs(env, u)
        ensures g == 0 && At(Outside, t, u, top)
      {
        assert At(Outside, Expand(env, Named(x), vis), u, e + g);
      }
    }
  }

  /** From a calm name no growing cycle can be reached. */
  lemma {:induction false} CalmNeverGrows(env: Env, t: Type, top: nat, x: string, vis: set<string>, a: string, i: nat,
                                          b: string, d: nat, j: nat)
    requires EnvPass(env, t) == t && Top(env, t, top) && Calm(env, t, top, x, vis)
    requires Leads(env, x, a, i) && OnGrowingCycle(env, a, b, d, j)
    ensures false
    decreases i
  {
    hide At, Expand, EnvPass, Def, Top, Calm;
    if i == 0 {
      assert Leads(env, b, a, j);
      var vis' := CalmStep(env, t, top, x, vis, b, d);
    } else {
      var m :| Uses(env, x, m) && Leads(env, m, a, i - 1);
      var e :| At(Outside, Def(env, x), m, e);
      var vis' := CalmStep(env, t, top, x, vis, m, e);
      CalmNeverGrows(env, t, top, m, vis', a, i - 1, b, d, j);
    }
  }

  lemma {:induction false} DepthBound(t: Type, n: string, d: nat)
    requires At(Outside, t, n, d)
    ensures d < Weight(t)
    decreases t
  {
    if !t.Named? {
      var p := AtPart(Outside, t, n, d);
      DepthBound(p, n, d - Step(t));
      PartWeight(t, p);
    }
  }

  lemma {:induction false} PartWeight(t: Type, p: Type)
    requires p in Parts(Outside, t)
    ensures Weight(p) + 1 <= Weight(t)
  {
    match t
    case Union(ts) => SetWeightRemove(ts, p);
    case Product(ps) => ListWeight(ps, p);
    case Fn(_, ps, r) => if p in ps { ListWeight(ps, p); }
    case _ =>
  }

  lemma {:induction false} ListWeight(ps: seq<Type>, p: Type)
    requires p in ps
    ensures Weight(p) <= SeqWeight(ps)
    decreases ps
  {
    if ps[0] != p {
      assert p in ps[1..];
      ListWeight(ps[1..], p);
    }
  }

  /** The deepest recursive name, looked for from d upwards. */
  lemma {:induction false} Deepest(env: Env, t: Type, n: string, d: nat) returns (m: string, top: nat)
    requires At(Outside, t, n, d) && Recurs(env, n)
    ensures At(Outside, t, m, top) && Recurs(env, m) && Top(env, t, top)
    decreases Weight(t) - d
  {
    hide At, Recurs;
    DepthBound(t, n, d);
    if u, e: nat :| At(Outside, t, u, e) && Recurs(env, u) && e > d {
      DepthBound(t, u, e);
      m, top := Deepest(env, t, u, e);
    } else {
      m, top := n, d;
    }
  }

  /** A type that a round leaves alone has no recursive name, in any environment. */
  lemma {:induction false} StableHasNoRecursion(env: Env, t: Type)
    requires EnvPass(env, t) == t
    ensures NoneRecurs(env, t)
  {
    hide At, Recurs, EnvPass;
    if n, d: nat :| At(Outside, t, n, d) && Recurs(env, n) {
      var m, top := Deepest(env, t, n, d);
      CalmAtTop(env, t, top, m);
      CalmIsNotRecursive(env, t, top, m);
    }
  }

  lemma {:induction false} CalmIsNotRecursive(env: Env, t: Type, top: nat, m: string)
    requires EnvPass(env, t) == t && Top(env, t, top) && Calm(env, t, top, m, {})
    ensures !Recurs(env, m)
  {
    hide At, EnvPass, Top, Calm, Leads, OnGrowingCycle;
    if a, b, d: nat, i: nat, j: nat :| Leads(env, m, a, i) && OnGrowingCycle(env, a, b, d, j) {
      CalmNeverGrows(env, t, top, m, {}, a, i, b, d, j);
    }
  }

  lemma {:induction false} NeverSettles(env: Env, t: Type, n: nat)
    requires !NoneRecurs(env, t)
    ensures !NoneRecurs(env, Rounds(env, t, n)) && Rounds(env, t, n + 1) != Rounds(env, t, n)
  {
    hide NoneRecurs, EnvPass;
    if n > 0 {
      NeverSettles(env, t, n - 1);
      RecursionSurvives(env, Rounds(env, t, n - 1));
    }
    if EnvPass(env, Rounds(env, t, n)) == Rounds(env, t, n) { StableHasNoRecursion(env, Rounds(env, t, n)); }
  }

  // ----- Without cycles the loop ends -----

  /** Every chain of definitions from a name in t ends within k names. */
  ghost predicate Ends(env: Env, t: Type, k: nat)
    decreases k
  {
    forall n, d: nat :: At(Outside, t, n, d) ==> k > 0 && Ends(env, Def(env, n), k - 1)
  }

  lemma {:induction false} EndsMono(env: Env, t: Type, k: nat)
    requires Ends(env, t, k)
    ensures Ends(env, t, k + 1)
    decreases k
  {
    hide At, Def;
    forall n, d: nat | At(Outside, t, n, d) ensures Ends(env, Def(env, n), k) { EndsMono(env, Def(env, n), k - 1); }
  }

  lemma {:induction false} PartEnds(env: Env, t: Type, p: Type, k: nat)
    requires Ends(env, t, k) && p in Parts(Outside, t)
    ensures Ends(env, p, k)
  {
    hide At, Def;
    forall n, d: nat | At(Outside, p, n, d) ensures At(Outside, t, n, d + Step(t)) { PartAt(Outside, t, p, n, d); }
  }

  lemma {:induction false} ExpandEnds(env: Env, t: Type, nms: set<string>, k: nat, m: string, e: nat)
    requires Ends(env, t, k) && At(Outside, Expand(env, t, nms), m, e)
    ensures k > 0 && Ends(env, Def(env, m), k - 1)
    decreases k, t
  {
    hide At, Def, Expand;
    if t.Named? {
      var n := t.name;
      NameAt(Outside, n);
      ExpandName(env, n, nms);
      if n in nms {
        OnlyNameAt(Outside, n, m, e);
      } else {
        ExpandEnds(env, Def(env, n), nms + {n}, k - 1, m, e);
        EndsMono(env, Def(env, m), k - 2);
      }
    } else {
      var inner := if t.Inv? then nms + {t.name} else nms;
      ExpandNode(env, t, nms, inner);
      var q := AtPart(Outside, Expand(env, t, nms), m, e);
      var p :| p in Parts(Outside, t) && q == Expand(env, p, inner);
      PartEnds(env, t, p, k);
      ExpandEnds(env, p, inner, k, m, e - Step(t));
    }
  }

  /** Where nothing is blocked, expansion goes at least one definition further. */
  lemma {:induction false} ExpandShortens(env: Env, t: Type, k: nat, m: string, e: nat)
    requires Ends(env, t, k) && NoInv(t) && At(Outside, Expand(env, t, {}), m, e)
    ensures k > 1 && Ends(env, Def(env, m), k - 2)
    decreases t
  {
    hide At, Def, Expand;
    if t.Named? {
      NameAt(Outside, t.name);
      ExpandName(env, t.name, {});
      ExpandEnds(env, Def(env, t.name), {} + {t.name}, k - 1, m, e);
    } else {
      ExpandNode(env, t, {}, {});
      var q := AtPart(Outside, Expand(env, t, {}), m, e);
      var p :| p in Parts(Outside, t) && q == Expand(env, p, {});
      PartEnds(env, t, p, k);
      ExpandShortens(env, p, k, m, e - Step(t));
    }
  }

  lemma {:induction false} RoundShortens(env: Env, t: Type, k: nat)
    requires Ends(env, t, k)
    ensures Ends(env, EnvPass(env, t), k) && NoInv(EnvPass(env, t))
    ensures NoInv(t) && k > 0 ==> Ends(env, EnvPass(env, t), k - 1)
  {
    hide At, Def, Expand, EnvPass, NoInv;
    EnvPassAt(env, t, "", 0);
    forall m, e: nat | At(Outside, EnvPass(env, t), m, e)
      ensures k > 0 && Ends(env, Def(env, m), k - 1)
      ensures NoInv(t) ==> k > 1 && Ends(env, Def(env, m), k - 2)
    {
      EnvPassAt(env, t, m, e);
      ExpandEnds(env, t, {}, k, m, e);
      if NoInv(t) { ExpandShortens(env, t, k, m, e); }
    }
  }

  lemma {:induction false} NamelessIsFree(t: Type)
    requires forall n, d: nat :: !At(Outside, t, n, d)
    ensures Free(NoNames, t)
    decreases t
  {
    hide At;
    if t.Named? { NameAt(Outside, t.name); }
    forall p | p in Parts(Outside, t) ensures Free(NoNames, p) {
      forall n, d: nat ensures !At(Outside, p, n, d) { if At(Outside, p, n, d) { PartAt(Outside, t, p, n, d); } }
      NamelessIsFree(p);
    }
  }

  lemma {:induction false} SettlesLater(env: Env, t: Type)
    requires Settles(env, EnvPass(env, t))
    ensures Settles(env, t)
  {
    hide EnvPass;
    var n: nat :| Rounds(env, EnvPass(env, t), n + 1) == Rounds(env, EnvPass(env, t), n);
    RoundsShift(env, t, n);
    RoundsShift(env, t, n + 1);
    assert Rounds(env, t, n + 1 + 1) == Rounds(env, t, n + 1);
  }

  lemma {:induction false} RoundsShift(env: Env, t: Type, n: nat)
    ensures Rounds(env, EnvPass(env, t), n) == Rounds(env, t, n + 1)
  {
    hide EnvPass;
    if n > 0 { RoundsShift(env, t, n - 1); }
  }

  lemma {:induction false} NamelessSettles(env: Env, t: Type)
    requires Free(NoNames, t)
    ensures Settles(env, t)
    decreases Weight(t)
  {
    hide EnvPass, Pass, Free;
    EnvPassNameFree(env, t);
    PassShrinks(t);
    if Pass(t) == t {
      assert Rounds(env, t, 0 + 1) == Rounds(env, t, 0);
    } else {
      NamelessSettles(env, Pass(t));
      SettlesLater(env, t);
    }
  }

  lemma {:induction false} EndingSettles(env: Env, t: Type, k: nat)
    requires Ends(env, t, k) && NoInv(t)
    ensures Settles(env, t)
    decreases k
  {
    hide EnvPass, NoInv, At, Def;
    if k == 0 {
      NamelessIsFree(t);
      NamelessSettles(env, t);
    } else {
      RoundShortens(env, t, k);
      EndingSettles(env, EnvPass(env, t), k - 1);
      SettlesLater(env, t);
    }
  }

  // ----- No cycle at all -----

  ghost predicate Acyclic(env: Env, n: string) {
    forall a, i: nat, j: nat :: Leads(env, n, a, i) && j > 0 ==> !Leads(env, a, a, j)
  }

  ghost predicate LeadsTo(env: Env, a: string, b: string) { exists i: nat :: i > 0 && Leads(env, a, b, i) }

  lemma {:induction false} LeadsOn(env: Env, a: string, b: string, c: string, i: nat, j: nat)
    requires Leads(env, a, b, i) && Leads(env, b, c, j)
    ensures Leads(env, a, c, i + j)
    decreases i
  {
    hide At, Def, Uses;
    if i > 0 {
      var m :| Uses(env, a, m) && Leads(env, m, b, i - 1);
      LeadsOn(env, m, b, c, i - 1, j);
    }
  }

  lemma {:induction false} LeadsOne(env: Env, a: string, b: string)
    requires Uses(env, a, b)
    ensures Leads(env, a, b, 1)
  {
    assert Leads(env, b, b, 0);
  }

  /** A way that is not idle passes a constructor. */
  lemma {:induction false} IdleOrGrowing(env: Env, a: string, b: string, i: nat)
      returns (x: string, y: string, d: nat, j: nat, k: nat)
    requires Leads(env, a, b, i) && !LeadsIdly(env, a, b, i)
    ensures Leads(env, a, x, j) && d > 0 && At(Outside, Def(env, x), y, d) && Leads(env, y, b, k)
    decreases i
  {
    hide At, Def;
    var m :| Uses(env, a, m) && Leads(env, m, b, i - 1);
    var e: nat :| At(Outside, Def(env, a), m, e);
    if e > 0 {
      x, y, d, j, k := a, m, e, 0, i - 1;
    } else {
      var j';
      x, y, d, j', k := IdleOrGrowing(env, m, b, i - 1);
      j := j' + 1;
    }
  }

  lemma {:induction false} RecursVia(env: Env, n: string, a: string, b: string, d: nat, i: nat, j: nat)
    requires Leads(env, n, a, i) && d > 0 && At(Outside, Def(env, a), b, d) && Leads(env, b, a, j)
    ensures Recurs(env, n)
  {
    assert OnGrowingCycle(env, a, b, d, j);
  }

  lemma {:induction false} NoCycle(env: Env, n: string)
    requires !Recurs(env, n) && !Idles(env, n)
    ensures Acyclic(env, n)
  {
    hide At, Def, Leads, LeadsIdly, Recurs;
    forall a, i: nat, j: nat | Leads(env, n, a, i) && j > 0 && Leads(env, a, a, j) ensures false {
      var x, y, d, p, q := IdleOrGrowing(env, a, a, j);
      LeadsOn(env, n, a, x, i, p);
      LeadsOn(env, y, a, x, q, p);
      RecursVia(env, n, x, y, d, i + p, q + p);
    }
  }

  /** path holds names already passed on the way to t. */
  lemma {:induction false} AcyclicEnds(env: Env, t: Type, path: set<string>)
    requires path <= env.Keys
    requires forall n, d: nat :: At(Outside, t, n, d) ==> Acyclic(env, n)
    requires forall n, d: nat, v :: At(Outside, t, n, d) && v in path ==> LeadsTo(env, v, n)
    ensures Ends(env, t, |env.Keys - path| + 1)
    decreases env.Keys - path
  {
    hide At, Def, Leads, Acyclic;
    var k := |env.Keys - path|;
    forall n, d: nat | At(Outside, t, n, d) ensures Ends(env, Def(env, n), k) {
      if n !in env {
        forall m, e: nat ensures !At(Outside, Def(env, n), m, e) { NothingInAll(env, n, m, e); }
      } else {
        if n in path { AcyclicNotOnPath(env, n); }
        AcyclicDef(env, n, path);
        assert env.Keys - (path + {n}) == (env.Keys - path) - {n};
        AcyclicEnds(env, Def(env, n), path + {n});
      }
    }
  }

  lemma {:induction false} AcyclicNotOnPath(env: Env, n: string)
    requires Acyclic(env, n)
    ensures !LeadsTo(env, n, n)
  {
    assert Leads(env, n, n, 0);
  }

  lemma {:induction false} AcyclicDef(env: Env, n: string, path: set<string>)
    requires Acyclic(env, n)
    requires forall v :: v in path ==> LeadsTo(env, v, n)
    ensures forall m, d: nat :: At(Outside, Def(env, n), m, d) ==> Acyclic(env, m)
    ensures forall m, d: nat, v :: At(Outside, Def(env, n), m, d) && v in path + {n} ==> LeadsTo(env, v, m)
  {
    hide At, Def, Leads;
    forall m, d: nat | At(Outside, Def(env, n), m, d)
      ensures Acyclic(env, m)
      ensures forall v :: v in path + {n} ==> LeadsTo(env, v, m)
    {
      LeadsOne(env, n, m);
      forall a, i: nat | Leads(env, m, a, i) ensures Leads(env, n, a, 1 + i) { LeadsOn(env, n, m, a, 1, i); }
      forall v | v in path ensures LeadsTo(env, v, m) {
        var i: nat :| i > 0 && Leads(env, v, n, i);
        LeadsOn(env, v, n, m, i, 1);
      }
    }
  }

  /** When the loop ends: where every cycle of definitions passes through a constructor, exactly
      if no name in the type leads to a cycle. */
  lemma {:induction false} SettlesIffNothingRecurs(env: Env, t: Type)
    requires NoneIdles(env, t)
    ensures Settles(env, t) <==> NoneRecurs(env, t)
  {
    hide At, Recurs, Idles, EnvPass, Ends, Acyclic;
    if NoneRecurs(env, t) {
      forall n, d: nat | At(Outside, t, n, d) ensures Acyclic(env, n) { NoCycle(env, n); }
      AcyclicEnds(env, t, {});
      RoundShortens(env, t, |env.Keys| + 1);
      EndingSettles(env, EnvPass(env, t), |env.Keys| + 1);
      SettlesLater(env, t);
    } else {
      hide NoneRecurs;
      forall n: nat ensures Rounds(env, t, n + 1) != Rounds(env, t, n) { NeverSettles(env, t, n); }
    }
  }

  // ----- What the loop ends in -----

  /** A name that expansion leaves is one that a name of the type leads to. */
  lemma {:induction false} ExpandLeads(env: Env, t: Type, nms: set<string>, m: string, e: nat)
      returns (n: string, d: nat, i: nat)
    requires At(Outside, Expand(env, t, nms), m, e)
    ensures At(Outside, t, n, d) && Leads(env, n, m, i)
    decreases env.Keys - nms, t
  {
    hide At, Def, Expand;
    if t.Named? {
      var x := t.name;
      NameAt(Outside, x);
      ExpandName(env, x, nms);
      n, d, i := x, 0, 0;
      if x in nms {
        OnlyNameAt(Outside, x, m, e);
      } else {
        if x !in env { NothingInExpandedAll(env, nms + {x}, m, e); }
        assert x in env.Keys - nms;
        var y, f, j := ExpandLeads(env, Def(env, x), nms + {x}, m, e);
        assert Uses(env, x, y);
        i := j + 1;
      }
    } else {
      var inner := if t.Inv? then nms + {t.name} else nms;
      ExpandNode(env, t, nms, inner);
      var q := AtPart(Outside, Expand(env, t, nms), m, e);
      var p :| p in Parts(Outside, t) && q == Expand(env, p, inner);
      n, d, i := ExpandLeads(env, p, inner, m, e - Step(t));
      PartAt(Outside, t, p, n, d);
      d := d + Step(t);
    }
  }

  lemma {:induction false} NothingInExpandedAll(env: Env, nms: set<string>, m: string, e: nat)
    ensures !At(Outside, Expand(env, All, nms), m, e)
  {
  }

  lemma {:induction false} RoundIdlesNowhere(env: Env, t: Type)
    requires NoneIdles(env, t)
    ensures NoneIdles(env, EnvPass(env, t))
  {
    hide At, Def, Leads, LeadsIdly, Expand, EnvPass;
    forall m, e: nat | At(Outside, EnvPass(env, t), m, e) ensures !Idles(env, m) {
      EnvPassAt(env, t, m, e);
      var n, d, i := ExpandLeads(env, t, {}, m, e);
      forall a, j: nat | Leads(env, m, a, j) ensures Leads(env, n, a, i + j) { LeadsOn(env, n, m, a, i, j); }
    }
  }

  /** Where no cycle is idle, a type that a round leaves alone has no names at all. */
  lemma {:induction false} StableIsNameless(env: Env, t: Type)
    requires NoneIdles(env, t) && EnvPass(env, t) == t
    ensures Free(NoNames, t)
  {
    hide At, Recurs, Idles, EnvPass, Ends, Acyclic, NoInv;
    StableHasNoRecursion(env, t);
    forall n, d: nat | At(Outside, t, n, d) ensures Acyclic(env, n) { NoCycle(env, n); }
    AcyclicEnds(env, t, {});
    StableShortens(env, t, |env.Keys| + 1);
  }

  lemma {:induction false} StableShortens(env: Env, t: Type, k: nat)
    requires EnvPass(env, t) == t && Ends(env, t, k)
    ensures Free(NoNames, t)
  {
    hide At, Def, EnvPass, NoInv;
    RoundShortens(env, t, k);
    if k > 0 {
      StableShortens(env, t, k - 1);
    } else {
      NamelessIsFree(t);
    }
  }

  /** Where no cycle is idle, the loop ends in a flat type without names and invariants. */
  lemma {:induction false} SettlesInNormalForm(env: Env, t: Type, n: nat)
    requires NoneIdles(env, t)
    ensures var r := Rounds(env, t, n);
            EnvPass(env, r) == r <==> Free(NoNames, r) && Flat(r) && Bare(r)
  {
    hide EnvPass, NoneIdles, Free, Flat, Bare;
    RoundsIdleNowhere(env, t, n);
    var r := Rounds(env, t, n);
    if EnvPass(env, r) == r { StableIsNameless(env, r); }
    if Free(NoNames, r) {
      EnvPassNameFree(env, r);
      StableIsNormalForm(r);
    }
  }

  lemma {:induction false} RoundsIdleNowhere(env: Env, t: Type, n: nat)
    requires NoneIdles(env, t)
    ensures NoneIdles(env, Rounds(env, t, n))
  {
    hide EnvPass, NoneIdles;
    if n > 0 {
      RoundsIdleNowhere(env, t, n - 1);
      RoundIdlesNowhere(env, Rounds(env, t, n - 1));
    }
  }

  /** A type that is no name is never called cyclic: with a recursive name in it the loop is
      entered and does not end. */
  lemma {:induction false} UnseenRecursion(env: Env, t: Type)
    requires !t.Named? && !NoneRecurs(env, t)
    ensures !IsCyclicTypeRep(env, t) && !Settles(env, t)
  {
    hide EnvPass, NoneRecurs;
    forall n: nat ensures Rounds(env, t, n + 1) != Rounds(env, t, n) { NeverSettles(env, t, n); }
  }

  const NAT_OR_SET: Env := map["T" := Union({Basic("nat"), SetOf(Named("T"))})]

  lemma {:induction false} NatOrSetNeverSettles()
    ensures var t := SetOf(Named("T")); !IsCyclicTypeRep(NAT_OR_SET, t) && !Settles(NAT_OR_SET, t)
  {
    var t, u := SetOf(Named("T")), NAT_OR_SET["T"];
    assert LOThelp(NAT_OR_SET, u, {} + {"T"}) == u;
    assert Def(NAT_OR_SET, "T") == u by {
      assert LOThelp(NAT_OR_SET, Named("T"), {}) == LOThelp(NAT_OR_SET, u, {} + {"T"});
    }
    hide Def;
    NameAt(Outside, "T");
    PartAt(Outside, t, Named("T"), "T", 0);
    PartAt(Outside, u, t, "T", 1);
    hide At;
    assert Leads(NAT_OR_SET, "T", "T", 0);
    RecursVia(NAT_OR_SET, "T", "T", "T", 1, 0, 0);
    UnseenRecursion(NAT_OR_SET, t);
  }

  // ----- Cycles through unions only may go either way -----

  const NAT: Type := Basic("nat")

  function OrNat(t: Type): Type { Union({t, NAT}) }

  const UNION_CYCLE: Env := map["T" := OrNat(Named("T"))]

  function Nested(n: nat): (t: Type)
    ensures t != NAT
  {
    if n == 0 then Named("T") else OrNat(Nested(n - 1))
  }

  lemma {:induction false} UnionCycleDef()
    ensures Def(UNION_CYCLE, "T") == Nested(1)
  {
    var t, u := Named("T"), OrNat(Named("T"));
    assert LOThelp(UNION_CYCLE, u, {} + {"T"}) == u;
    assert UNION_CYCLE["T"] == u && LOThelp(UNION_CYCLE, t, {}) == LOThelp(UNION_CYCLE, u, {} + {"T"});
    assert Nested(0) == t;
  }

  lemma {:induction false} ExpandOrNat(t: Type, nms: set<string>)
    ensures Expand(UNION_CYCLE, OrNat(t), nms) == OrNat(Expand(UNION_CYCLE, t, nms))
  {
    hide Expand;
    ExpandNode(UNION_CYCLE, OrNat(t), nms, nms);
    ExpandNat(t, nms);
  }

  lemma {:induction false} ExpandNat(t: Type, nms: set<string>)
    ensures Expand(UNION_CYCLE, NAT, nms) == NAT && Expand(UNION_CYCLE, OrNat(t), nms).Union?
  {
  }

  lemma {:induction false} ExpandNested(n: nat)
    ensures Expand(UNION_CYCLE, Nested(n), {}) == Nested(n + 1)
  {
    hide OrNat, Expand;
    if n == 0 {
      UnionCycleDef();
      ExpandName(UNION_CYCLE, "T", {});
      ExpandOrNat(Named("T"), {} + {"T"});
      ExpandName(UNION_CYCLE, "T", {} + {"T"});
    } else {
      ExpandNested(n - 1);
      ExpandOrNat(Nested(n - 1), {});
    }
  }

  lemma {:induction false} OrNatIsBare(t: Type)
    requires Bare(t) && t != NAT
    ensures Bare(OrNat(t))
  {
    assert |{t, NAT}| == 2;
  }

  lemma {:induction false} NestedIsBare(n: nat)
    ensures Bare(Nested(n)) && RemoveInv(Nested(n)) == Nested(n)
  {
    hide OrNat, RemoveInv;
    if n > 0 {
      NestedIsBare(n - 1);
      OrNatIsBare(Nested(n - 1));
    }
    BareIsFixed(Nested(n));
  }

  lemma {:induction false} NestedDiffer(n: nat)
    ensures Nested(n) != Nested(n + 1)
  {
    if n > 0 {
      NestedDiffer(n - 1);
      assert Nested(n) in Nested(n + 1).members && Nested(n) !in Nested(n).members;
    }
  }

  lemma {:induction false} SelfIsOptimal()
    ensures var ts := {Named("T"), NAT}; |ts| == 2 && OptimizeType(DropEmpties(ts)) == ts
  {
    hide OptimizeType;
    var ts := {Named("T"), NAT};
    assert DropEmpties(ts) == ts;
    OptimizeUnmerged(ts);
  }

  lemma {:induction false} OrNatIsClean(t: Type)
    requires CleanAux(t) + {NAT} == {Named("T"), NAT}
    ensures CleanAux(OrNat(t)) == {Named("T"), NAT} && Clean(OrNat(t)) == Nested(1)
  {
    hide CleanAux, OptimizeType, DropEmpties;
    var m := CleanEach(OrNat(t));
    CleanAuxUnion(OrNat(t));
    SelfIsOptimal();
    assert Flatten(m) == {Named("T"), NAT} by { assert m[t] == CleanAux(t) && m[NAT] == CleanAux(NAT); }
    assert Nested(0) == Named("T");
  }

  lemma {:induction false} CleanAuxUnion(t: Type)
    requires t.Union?
    ensures CleanAux(NAT) == {NAT} && CleanAux(t) == CleanMembers(CleanEach(t))
  {
    hide CleanMembers;
  }

  /** With T = T | nat no definition passes a constructor, and "set of T" settles after one round. */
  lemma {:induction false} UnionCycleSettles()
    ensures var t := SetOf(Named("T")); NoneRecurs(UNION_CYCLE, t) && Settles(UNION_CYCLE, t)
  {
    hide EnvPass, OrNat, NoneRecurs;
    var t := SetOf(Nested(0));
    NothingGrowsInUnionCycle(t);
    RoundOfUnionCycle(0);
    RoundOfUnionCycle(1);
    assert Rounds(UNION_CYCLE, t, 1 + 1) == Rounds(UNION_CYCLE, t, 1);
  }

  lemma {:induction false} RoundOfUnionCycle(n: nat)
    requires n <= 1
    ensures EnvPass(UNION_CYCLE, SetOf(Nested(n))) == SetOf(Nested(1))
  {
    hide Clean, Expand, OrNat, RemoveInv;
    ExpandSet(Nested(n));
    ExpandNested(n);
    CleanNested(n);
    CleanSet(Nested(n + 1));
    NestedIsBare(1);
    BareIsFixed(SetOf(Nested(1)));
  }

  lemma {:induction false} CleanNested(n: nat)
    requires n <= 1
    ensures Clean(Nested(n + 1)) == Nested(1)
  {
    hide Clean, OrNat;
    assert CleanAux(Nested(0)) == {Named("T")};
    OrNatIsClean(Nested(0));
    assert Nested(1) == OrNat(Nested(0));
    if n == 1 { OrNatIsClean(Nested(1)); }
  }

  lemma {:induction false} ExpandSet(t: Type)
    ensures Expand(UNION_CYCLE, SetOf(t), {}) == SetOf(Expand(UNION_CYCLE, t, {}))
    ensures Expand(UNION_CYCLE, EmptySet(t), {}) == EmptySet(Expand(UNION_CYCLE, t, {}))
  {
  }

  lemma {:induction false} CleanSet(t: Type)
    ensures Clean(SetOf(t)) == SetOf(Clean(t)) && Clean(EmptySet(t)) == EmptySet(t)
  {
    assert CleanAux(SetOf(t)) == {SetOf(Clean(t))} && CleanAux(EmptySet(t)) == {EmptySet(t)};
  }

  lemma {:induction false} NothingGrowsInUnionCycle(t: Type)
    ensures NoneRecurs(UNION_CYCLE, t)
  {
    hide At, Leads, Def, OrNat;
    forall n, d: nat | At(Outside, t, n, d) ensures !Recurs(UNION_CYCLE, n) {
      if Recurs(UNION_CYCLE, n) {
        var a, b, e: nat, i: nat, j: nat :| Leads(UNION_CYCLE, n, a, i) && OnGrowingCycle(UNION_CYCLE, a, b, e, j);
        OnlyFlatNames(a, b, e);
      }
    }
  }

  lemma {:induction false} OnlyFlatNames(a: string, b: string, e: nat)
    requires At(Outside, Def(UNION_CYCLE, a), b, e)
    ensures e == 0
  {
    hide At, Def;
    if a in UNION_CYCLE {
      UnionCycleDef();
      var p := AtPart(Outside, Nested(1), b, e);
      assert p == Nested(0) || p == NAT;
      FlatNames(p, b, e);
    } else {
      NothingInAll(UNION_CYCLE, a, b, e);
    }
  }

  lemma {:induction false} FlatNames(p: Type, b: string, e: nat)
    requires (p == Named("T") || p == NAT) && At(Outside, p, b, e)
    ensures e == 0
  {
  }

  /** The same cycle below an empty-set type, which is not flattened, grows for ever. */
  lemma {:induction false} UnionCycleMayGrow(n: nat)
    ensures var t := EmptySet(Named("T"));
            && NoneRecurs(UNION_CYCLE, t)
            && Rounds(UNION_CYCLE, t, n) == EmptySet(Nested(n))
            && Rounds(UNION_CYCLE, t, n + 1) != Rounds(UNION_CYCLE, t, n)
  {
    hide EnvPass, OrNat, NoneRecurs;
    NothingGrowsInUnionCycle(EmptySet(Named("T")));
    if n > 0 {
      UnionCycleMayGrow(n - 1);
      RoundOfNested(n - 1);
    }
    RoundOfNested(n);
    NestedDiffer(n);
  }

  lemma {:induction false} RoundOfNested(n: nat)
    ensures EnvPass(UNION_CYCLE, EmptySet(Nested(n))) == EmptySet(Nested(n + 1))
  {
    hide Clean, Expand, OrNat, RemoveInv;
    ExpandSet(Nested(n));
    ExpandNested(n);
    CleanSet(Nested(n + 1));
    NestedIsBare(n + 1);
    BareIsFixed(EmptySet(Nested(n + 1)));
  }
}
