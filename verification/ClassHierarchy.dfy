/**
 The passes over the inheritance graph: a topological visit that also lists every class's
 superclasses, and the propagation of abstract methods along it.
 */
module ClassHierarchy {

  type Supers = map<string, set<string>>

  /** Each class of p is a direct subclass of the next one. */
  ghost predicate Path(sup: Supers, p: seq<string>) {
    forall i :: 0 <= i < |p| - 1 ==> p[i] in sup && p[i + 1] in sup[p[i]]
  }

  ghost predicate PathBetween(sup: Supers, p: seq<string>, c: string, d: string) {
    |p| >= 2 && p[0] == c && p[|p| - 1] == d && Path(sup, p)
  }

  /** d is a strict ancestor of c. */
  ghost predicate Ancestor(sup: Supers, c: string, d: string) { exists p :: PathBetween(sup, p, c, d) }

  ghost predicate SelfOrAncestor(sup: Supers, c: string, d: string) { c == d || Ancestor(sup, c, d) }

  /** The whole ancestry of c is defined and free of cycles. */
  ghost predicate Sound(sup: Supers, c: string) {
    forall d :: SelfOrAncestor(sup, c, d) ==> d in sup && !Ancestor(sup, d, d)
  }

  lemma {:induction false} AncestorStep(sup: Supers, c: string, d: string)
    requires c in sup
    ensures Ancestor(sup, c, d) <==> exists s :: s in sup[c] && SelfOrAncestor(sup, s, d)
  {
    if p :| PathBetween(sup, p, c, d) {
      var s := p[1];
      if |p| > 2 { assert PathBetween(sup, p[1..], s, d); }
    }
    if s :| s in sup[c] && SelfOrAncestor(sup, s, d) {
      if s == d {
        assert PathBetween(sup, [c, d], c, d);
      } else {
        var p :| PathBetween(sup, p, s, d);
        PathCons(sup, c, p);
        assert PathBetween(sup, [c] + p, c, d);
      }
    }
  }

  lemma {:induction false} PathCons(sup: Supers, c: string, p: seq<string>)
    requires p != [] && Path(sup, p) && c in sup && p[0] in sup[c]
    ensures Path(sup, [c] + p)
  {
    forall i | 0 <= i < |p| ensures ([c] + p)[i] in sup && ([c] + p)[i + 1] in sup[([c] + p)[i]] {
      if i > 0 { assert p[i - 1] in sup && p[i - 1 + 1] in sup[p[i - 1]]; }
    }
  }

  /** Every superclass is a class itself. */
  ghost predicate AllDefined(sup: Supers) { forall c, s :: c in sup && s in sup[c] ==> s in sup }

  // ----- Visit orders -----

  /** Every class of the order is defined, and its superclasses stand before it. */
  ghost predicate TopDown(sup: Supers, order: seq<string>) {
    && (forall i, j :: 0 <= i < j < |order| ==> order[i] != order[j])
    && forall i :: 0 <= i < |order| ==> order[i] in sup && forall s :: s in sup[order[i]] ==> s in order[..i]
  }

  /** Ancestors of a class in the order stand before it. */
  lemma {:induction false} AncestorsBefore(sup: Supers, order: seq<string>, i: nat, p: seq<string>)
    requires TopDown(sup, order) && i < |order| && |p| >= 2 && p[0] == order[i] && Path(sup, p)
    ensures p[|p| - 1] in order[..i]
    decreases |p|
  {
    assert p[0] in sup && p[0 + 1] in sup[p[0]];
    var j :| 0 <= j < i && order[..i][j] == p[1];
    if |p| > 2 {
      AncestorsBefore(sup, order, j, p[1..]);
      assert order[..j] <= order[..i];
      assert p[1..][|p| - 2] == p[|p| - 1];
    }
  }

  /** What is visited is sound. */
  lemma {:induction false} VisitedIsSound(sup: Supers, order: seq<string>, c: string)
    requires TopDown(sup, order) && c in order
    ensures Sound(sup, c)
  {
    forall d | SelfOrAncestor(sup, c, d) ensures d in sup && !Ancestor(sup, d, d) {
      var i :| 0 <= i < |order| && order[i] == c;
      if c != d {
        var p :| PathBetween(sup, p, c, d);
        AncestorsBefore(sup, order, i, p);
      }
      assert d in order;
      var k :| 0 <= k < |order| && order[k] == d;
      assert d !in order[..k];
      forall p ensures !PathBetween(sup, p, d, d) {
        if PathBetween(sup, p, d, d) { AncestorsBefore(sup, order, k, p); }
      }
    }
  }

  /** Classes left over when nothing more can be visited. */
  ghost predicate Stuck(sup: Supers, order: seq<string>, left: set<string>) {
    left <= sup.Keys && forall c :: c in left ==> exists s :: s in sup[c] && s !in order
  }

  ghost function Elems(order: seq<string>): set<string> { set c | c in order }

  ghost predicate Rest(sup: Supers, order: seq<string>, left: set<string>) {
    forall c :: c in left <==> c in sup && c !in order
  }

  lemma {:induction false} DistinctFits(p: seq<string>, left: set<string>)
    requires (forall i, j :: 0 <= i < j < |p| ==> p[i] != p[j]) && forall x :: x in p ==> x in left
    ensures |p| <= |left|
    decreases |p|
  {
    if p != [] {
      assert p[0] !in p[1..];
      DistinctFits(p[1..], left - {p[0]});
    }
  }

  /** From a stuck class some path leads to an undefined class or into a cycle. */
  lemma {:induction false} StuckIsUnsound(sup: Supers, order: seq<string>, left: set<string>, p: seq<string>)
    requires Stuck(sup, order, left) && Rest(sup, order, left)
    requires p != [] && Path(sup, p) && (forall x :: x in p ==> x in left)
    requires forall i, j :: 0 <= i < j < |p| ==> p[i] != p[j]
    ensures !Sound(sup, p[0])
    decreases |left| - |p|
  {
    DistinctFits(p, left);
    var c := p[|p| - 1];
    var s :| s in sup[c] && s !in order;
    PathSnoc(sup, p, s);
    var q := p + [s];
    assert PathBetween(sup, q, p[0], s);
    assert SelfOrAncestor(sup, p[0], s);
    if s in sup {
      if s in p {
        var i :| 0 <= i < |p| && p[i] == s;
        assert PathBetween(sup, q[i..], s, s) by { assert q[i..][0] == s && q[i..][|p| - i] == s; }
        assert Ancestor(sup, s, s);
      } else {
        StuckIsUnsoundMeasure(left, p, s);
        StuckIsUnsound(sup, order, left, q);
      }
    }
  }

  lemma {:induction false} StuckIsUnsoundMeasure(left: set<string>, p: seq<string>, s: string)
    requires (forall i, j :: 0 <= i < j < |p| ==> p[i] != p[j]) && (forall x :: x in p ==> x in left) && s in left
            && s !in p
    ensures |p| < |left|
  {
    DistinctFits(p + [s], left);
  }

  lemma {:induction false} PathSnoc(sup: Supers, p: seq<string>, s: string)
    requires p != [] && Path(sup, p) && p[|p| - 1] in sup && s in sup[p[|p| - 1]]
    ensures Path(sup, p + [s])
  {
    var q := p + [s];
    forall i | 0 <= i < |q| - 1 ensures q[i] in sup && q[i + 1] in sup[q[i]] {
      if i < |p| - 1 { assert p[i] in sup && p[i + 1] in sup[p[i]]; }
    }
  }

  /** A finished visit has visited exactly the sound classes. */
  lemma {:induction false} VisitsSound(sup: Supers, order: seq<string>, left: set<string>, c: string)
    requires TopDown(sup, order) && Rest(sup, order, left) && Stuck(sup, order, left)
    ensures c in order <==> c in sup && Sound(sup, c)
  {
    if c in order {
      VisitedIsSound(sup, order, c);
      var i :| 0 <= i < |order| && order[i] == c;
    } else if c in sup {
      StuckIsUnsound(sup, order, left, [c]);
    }
  }

  lemma {:induction false} NextInOrder(sup: Supers, order: seq<string>, idx: nat)
    requires TopDown(sup, order) && idx < |order|
    ensures order[idx] in sup && order[idx] !in order[..idx] && order[idx] in order
    ensures forall s :: s in sup[order[idx]] ==> s in order[..idx] && s in order
    ensures order[..idx + 1] == order[..idx] + [order[idx]]
  {
  }

  // ----- Abstract methods -----

  type Methods = map<string, set<string>>

  /** m is in the table of c or of one of its ancestors. */
  ghost predicate Somewhere(sup: Supers, t: Methods, c: string, m: string) {
    exists d :: SelfOrAncestor(sup, c, d) && d in t && m in t[d]
  }

  lemma {:induction false} SomewhereStep(sup: Supers, t: Methods, c: string, m: string)
    requires c in sup && c in t
    ensures Somewhere(sup, t, c, m) <==> m in t[c] || exists s :: s in sup[c] && Somewhere(sup, t, s, m)
  {
    if d :| SelfOrAncestor(sup, c, d) && d in t && m in t[d] {
      AncestorStep(sup, c, d);
      if c != d {
        var s :| s in sup[c] && SelfOrAncestor(sup, s, d);
        assert Somewhere(sup, t, s, m);
      }
    }
    if m in t[c] { assert SelfOrAncestor(sup, c, c); }
    if s :| s in sup[c] && Somewhere(sup, t, s, m) {
      var d :| SelfOrAncestor(sup, s, d) && d in t && m in t[d];
      AncestorStep(sup, c, d);
      assert SelfOrAncestor(sup, c, d);
    }
  }

  // ----- The passes -----

  class VdmCG {
    var superClasses: Supers
    var orderedSupers: map<string, seq<string>>
    var classVisitOrder: seq<string>
    var abstractMethods: Methods
    var nonAbstractMethods: Methods
    var allNonAbstractMethods: Methods

    /** The list of every visited class holds its strict ancestors and nothing else. */
    ghost predicate Listed()
      reads this
    {
      ListedIn(superClasses, orderedSupers, classVisitOrder)
    }

    method GenerateOrderedSupers()
      requires classVisitOrder == [] && orderedSupers == map[]
      modifies this`orderedSupers, this`classVisitOrder
      ensures TopDown(superClasses, classVisitOrder) && Listed()
      ensures forall c :: c in classVisitOrder <==> c in superClasses && Sound(superClasses, c)
      ensures superClasses.Keys <= orderedSupers.Keys
      ensures AllDefined(superClasses) ==> orderedSupers.Keys == superClasses.Keys
    {
      hide ListedIn, TopDown, Stuck, Sound, Rest, Elems, AllDefined;
      NoneVisited(superClasses, orderedSupers);
      var visited: set<string> := {};
      var toVisit := superClasses.Keys;
      ghost var left := toVisit;
      while toVisit != {}
        invariant TopDown(superClasses, classVisitOrder) && Listed()
        invariant visited == Elems(classVisitOrder) && visited <= orderedSupers.Keys
        invariant Rest(superClasses, classVisitOrder, left) && left <= superClasses.Keys
        invariant toVisit == left || (toVisit == {} && Stuck(superClasses, classVisitOrder, left))
        invariant superClasses.Keys - left <= visited
        invariant toVisit == left ==> visited <= superClasses.Keys
        invariant AllDefined(superClasses) ==> orderedSupers.Keys <= superClasses.Keys
        invariant if toVisit == left then orderedSupers.Keys == visited else superClasses.Keys <= orderedSupers.Keys
        decreases toVisit
      {
        var exists_, cl := FindReady(toVisit, visited);
        if exists_ {
          OneMoreVisited(superClasses, classVisitOrder, left, cl);
          Visit(cl);
          visited := visited + {cl};
          toVisit := toVisit - {cl};
          left := left - {cl};
        } else {
          NothingReady(superClasses, classVisitOrder, left, visited);
          GiveUp(toVisit, visited);
          toVisit := {};
        }
      }
      forall c ensures c in classVisitOrder <==> c in superClasses && Sound(superClasses, c) {
        if left == {} { NoneStuck(superClasses, classVisitOrder); }
        VisitsSound(superClasses, classVisitOrder, left, c);
      }
    }

    /** A class whose superclasses have all been visited. */
    method Visit(cl: string)
      requires TopDown(superClasses, classVisitOrder) && Listed() && orderedSupers.Keys == Elems(classVisitOrder)
      requires cl in superClasses && cl !in classVisitOrder && superClasses[cl] <= Elems(classVisitOrder)
      modifies this`orderedSupers, this`classVisitOrder
      ensures TopDown(superClasses, classVisitOrder) && Listed()
      ensures classVisitOrder == old(classVisitOrder) + [cl] && orderedSupers.Keys == old(orderedSupers).Keys + {cl}
    {
      hide ListedIn, TopDown, ListsAncestors;
      var listed := ListSupers(cl);
      OneMoreListed(superClasses, orderedSupers, classVisitOrder, cl, listed);
      OneMore(superClasses, classVisitOrder, cl);
      orderedSupers := orderedSupers[cl := listed];
      classVisitOrder := classVisitOrder + [cl];
    }

    /** The scan for a class all of whose superclasses have been visited. */
    method FindReady(toVisit: set<string>, visited: set<string>) returns (found: bool, cl: string)
      requires toVisit <= superClasses.Keys
      ensures found ==> cl in toVisit && superClasses[cl] <= visited
      ensures !found ==> forall c :: c in toVisit ==> !(superClasses[c] <= visited)
    {
      found := false;
      cl := "";
      var scan := toVisit;
      while scan != {} && !found
        invariant scan <= toVisit
        invariant found ==> cl in toVisit && superClasses[cl] <= visited
        invariant !found ==> forall c :: c in toVisit - scan ==> !(superClasses[c] <= visited)
        decreases scan
      {
        var g :| g in scan;
        found := superClasses[g] <= visited;
        if found {
          cl := g;
        }
        scan := scan - {g};
      }
    }

    /** The direct superclasses followed by their lists. */
    method ListSupers(cl: string) returns (listed: seq<string>)
      requires cl in superClasses && TopDown(superClasses, classVisitOrder) && Listed()
      requires forall s :: s in superClasses[cl] ==> s in classVisitOrder
      ensures ListsAncestors(superClasses, listed, cl)
      ensures superClasses[cl] == {} ==> listed == []
      ensures forall s :: superClasses[cl] == {s} && s in orderedSupers ==> listed == [s] + orderedSupers[s]
    {
      var seqSupers := ToSequence(superClasses[cl]);
      listed := seqSupers;
      for k := 0 to |seqSupers|
        invariant forall d :: d in listed <==>
                    d in superClasses[cl] || exists j :: 0 <= j < k && Ancestor(superClasses, seqSupers[j], d)
        invariant k == 0 ==> listed == seqSupers
        invariant k == 1 ==> listed == seqSupers + orderedSupers[seqSupers[0]]
      {
        var sups := seqSupers[k];
        assert sups in superClasses[cl];
        if sups in orderedSupers {
          listed := listed + orderedSupers[sups];
        }
      }
      forall s | superClasses[cl] == {s} ensures seqSupers == [s] { assert |{s}| == 1 && seqSupers[0] in seqSupers; }
      forall d ensures d in listed <==> Ancestor(superClasses, cl, d) {
        AncestorStep(superClasses, cl, d);
        if s :| s in superClasses[cl] && Ancestor(superClasses, s, d) {
          var j :| 0 <= j < |seqSupers| && seqSupers[j] == s;
        }
      }
    }

    /** Nothing more can be visited: the rest gets its direct superclasses, and unknown names an empty list. */
    method GiveUp(toVisit: set<string>, visited: set<string>)
      requires toVisit <= superClasses.Keys && TopDown(superClasses, classVisitOrder)
      requires visited == Elems(classVisitOrder) && orderedSupers.Keys == visited && Listed()
      modifies this`orderedSupers
      ensures forall c :: c in old(orderedSupers) ==> c in orderedSupers && orderedSupers[c] == old(orderedSupers)[c]
      ensures toVisit <= orderedSupers.Keys && Listed()
      ensures AllDefined(superClasses) ==> orderedSupers.Keys <= old(orderedSupers).Keys + superClasses.Keys
    {
      var s: set<string> := {};
      var rest := toVisit;
      while rest != {}
        invariant rest <= toVisit && toVisit - rest <= orderedSupers.Keys
        invariant orderedSupers.Keys <= old(orderedSupers).Keys + superClasses.Keys
        invariant AllDefined(superClasses) ==> s <= superClasses.Keys
        invariant forall c :: c in old(orderedSupers) ==>
                  c in orderedSupers && orderedSupers[c] == old(orderedSupers)[c]
      {
        var cl :| cl in rest;
        s := s + superClasses[cl];
        if cl !in orderedSupers {
          var direct := ToSequence(superClasses[cl]);
          orderedSupers := orderedSupers[cl := direct];
        }
        rest := rest - {cl};
      }
      s := s - visited;
      while s != {}
        invariant toVisit <= orderedSupers.Keys
        invariant AllDefined(superClasses) ==>
                    s <= superClasses.Keys && orderedSupers.Keys <= old(orderedSupers).Keys + superClasses.Keys
        invariant forall c :: c in old(orderedSupers) ==>
                  c in orderedSupers && orderedSupers[c] == old(orderedSupers)[c]
      {
        var cl :| cl in s;
        if cl !in orderedSupers {
          orderedSupers := orderedSupers[cl := []];
        }
        s := s - {cl};
      }
    }

    /** Before: the methods each class declares abstract or gives a body. */
    method ProcessAbstractMethods()
      requires TopDown(superClasses, classVisitOrder) && allNonAbstractMethods == map[]
      requires forall c :: c in classVisitOrder ==> c in abstractMethods && c in nonAbstractMethods
      modifies this`abstractMethods, this`allNonAbstractMethods
      ensures abstractMethods.Keys == old(abstractMethods).Keys
      ensures forall c, m :: c in classVisitOrder ==>
                (m in abstractMethods[c] <==> Somewhere(superClasses, old(abstractMethods), c, m)
                                              && !Somewhere(superClasses, nonAbstractMethods, c, m))
    {
      hide TopDown, Somewhere;
      for idx := 0 to |classVisitOrder|
        invariant abstractMethods.Keys == old(abstractMethods).Keys
        invariant allNonAbstractMethods.Keys == set c | c in classVisitOrder[..idx]
        invariant forall c :: c in abstractMethods && c !in classVisitOrder[..idx] ==>
                  abstractMethods[c] == old(abstractMethods)[c]
        invariant forall c, m :: c in classVisitOrder[..idx] ==>
                    && (m in allNonAbstractMethods[c] <==> Somewhere(superClasses, nonAbstractMethods, c, m))
                    && (m in abstractMethods[c] <==> Somewhere(superClasses, old(abstractMethods), c, m)
                                                     && !Somewhere(superClasses, nonAbstractMethods, c, m))
      {
        var cl := classVisitOrder[idx];
        NextInOrder(superClasses, classVisitOrder, idx);
        var inheritedAbstract, inheritedNonAbstract := Inherited(cl, idx);
        var thisAllNonAbstract := nonAbstractMethods[cl] + inheritedNonAbstract;
        allNonAbstractMethods := allNonAbstractMethods[cl := thisAllNonAbstract];
        var thisAbstract := abstractMethods[cl] + inheritedAbstract;
        thisAbstract := thisAbstract - allNonAbstractMethods[cl];
        abstractMethods := abstractMethods[cl := thisAbstract];
        forall m ensures (m in thisAllNonAbstract <==> Somewhere(superClasses, nonAbstractMethods, cl, m))
          && (m in thisAbstract <==> Somewhere(superClasses, old(abstractMethods), cl, m)
                                     && !Somewhere(superClasses, nonAbstractMethods, cl, m))
        {
          SomewhereStep(superClasses, nonAbstractMethods, cl, m);
          SomewhereStep(superClasses, old(abstractMethods), cl, m);
        }
      }
      assert classVisitOrder[..|classVisitOrder|] == classVisitOrder;
    }

    /** The union of the tables of the direct superclasses, all of them processed. */
    method Inherited(cl: string, idx: nat) returns (abs: set<string>, nonAbs: set<string>)
      requires cl in superClasses && idx <= |classVisitOrder|
      requires forall s :: s in superClasses[cl] ==> s in abstractMethods && s in allNonAbstractMethods
      ensures forall m :: m in abs <==> exists s :: s in superClasses[cl] && m in abstractMethods[s]
      ensures forall m :: m in nonAbs <==> exists s :: s in superClasses[cl] && m in allNonAbstractMethods[s]
    {
      abs, nonAbs := {}, {};
      var rest := superClasses[cl];
      while rest != {}
        invariant rest <= superClasses[cl]
        invariant forall m :: m in abs <==> exists s :: s in superClasses[cl] - rest && m in abstractMethods[s]
        invariant forall m :: m in nonAbs <==> exists s :: s in superClasses[cl] - rest && m in allNonAbstractMethods[s]
      {
        var superCl :| superCl in rest;
        abs := abs + abstractMethods[superCl];
        nonAbs := nonAbs + allNonAbstractMethods[superCl];
        rest := rest - {superCl};
      }
    }
  }

  ghost predicate ListedIn(sup: Supers, lists: map<string, seq<string>>, order: seq<string>) {
    forall c :: c in order ==> c in lists && ListsAncestors(sup, lists[c], c) && Linear(sup, lists, c)
  }

  lemma {:induction false} OneMoreListed(sup: Supers, lists: map<string, seq<string>>, order: seq<string>, cl: string,
                                         listed: seq<string>)
    requires TopDown(sup, order) && ListedIn(sup, lists, order) && cl in sup && cl !in lists
    requires ListsAncestors(sup, listed, cl) && (forall s :: s in sup[cl] ==> s in order)
    requires sup[cl] == {} ==> listed == []
    requires forall s :: sup[cl] == {s} && s in lists ==> listed == [s] + lists[s]
    ensures ListedIn(sup, lists[cl := listed], order + [cl])
  {
    hide ListsAncestors;
    var after := lists[cl := listed];
    assert cl !in order;
    forall c | c in order ensures Linear(sup, after, c) {
      assert Linear(sup, lists, c);
      SupersInOrder(sup, order, c);
    }
    forall s | sup[cl] == {s} && s in after ensures after[cl] == [s] + after[s] {
      assert s in sup[cl];
    }
  }

  lemma {:induction false} SupersInOrder(sup: Supers, order: seq<string>, c: string)
    requires TopDown(sup, order) && c in order
    ensures c in sup && forall s :: s in sup[c] ==> s in order
  {
    var i :| 0 <= i < |order| && order[i] == c;
  }

  /** With at most one direct superclass the list is that class followed by its list. */
  ghost predicate Linear(sup: Supers, lists: map<string, seq<string>>, c: string)
    requires c in lists
  {
    c in sup ==>
      && (sup[c] == {} ==> lists[c] == [])
      && forall s :: sup[c] == {s} && s in lists ==> lists[c] == [s] + lists[s]
  }

  ghost predicate ListsAncestors(sup: Supers, listed: seq<string>, c: string) {
    forall d :: d in listed <==> Ancestor(sup, c, d)
  }

  method ToSequence(s: set<string>) returns (r: seq<string>)
    ensures |r| == |s| && forall x :: x in r <==> x in s
  {
    r := [];
    var rest := s;
    while rest != {}
      invariant rest <= s && |r| + |rest| == |s| && forall x :: x in r <==> x in s - rest
    {
      var x :| x in rest;
      r := r + [x];
      rest := rest - {x};
    }
  }

  lemma {:induction false} NoneVisited(sup: Supers, lists: map<string, seq<string>>)
    ensures TopDown(sup, []) && ListedIn(sup, lists, []) && Rest(sup, [], sup.Keys) && Elems([]) == {}
  {
  }

  lemma {:induction false} NoneStuck(sup: Supers, order: seq<string>)
    ensures Stuck(sup, order, {})
  {
  }

  lemma {:induction false} OneMoreVisited(sup: Supers, order: seq<string>, left: set<string>, c: string)
    requires Rest(sup, order, left) && c in left
    ensures c in sup && c !in order && Rest(sup, order + [c], left - {c}) && Elems(order + [c]) == Elems(order) + {c}
  {
  }

  lemma {:induction false} NothingReady(sup: Supers, order: seq<string>, left: set<string>, visited: set<string>)
    requires left <= sup.Keys && visited == Elems(order) && forall c :: c in left ==> !(sup[c] <= visited)
    ensures Stuck(sup, order, left)
  {
    forall c | c in left ensures exists s :: s in sup[c] && s !in order {
      var s :| s in sup[c] && s !in visited;
      assert s !in order;
    }
  }

  lemma {:induction false} OneMore(sup: Supers, order: seq<string>, c: string)
    requires TopDown(sup, order) && c in sup && c !in order && forall s :: s in sup[c] ==> s in order
    ensures TopDown(sup, order + [c])
  {
    var all := order + [c];
    forall i | 0 <= i < |all| ensures all[i] in sup && forall s :: s in sup[all[i]] ==> s in all[..i] {
      if i < |order| {
        assert all[i] == order[i] && all[..i] == order[..i];
      } else {
        assert all[..i] == order;
      }
    }
  }
}
