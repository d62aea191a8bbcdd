/** Which of two steps comes first, said of the plan alone: by what the lists of numbers lead to. */
module PlanPrecedence {
  import opened PlanOrdering

  /** A step numbered a is placed before one numbered b. */
  ghost predicate PlacedBefore(order: seq<PlanStep>, a: int, b: int) {
    exists i, j :: 0 <= i < j < |order| && order[i].num == a && order[j].num == b
  }

  lemma StaysBefore(few: seq<PlanStep>, many: seq<PlanStep>, a: int, b: int)
    requires few <= many && PlacedBefore(few, a, b)
    ensures PlacedBefore(many, a, b)
  {
    var i, j :| 0 <= i < j < |few| && few[i].num == a && few[j].num == b;
    assert many[i].num == a && many[j].num == b;
  }

  /** The one is placed already, the other is only later. */
  lemma LaterPlaced(few: seq<PlanStep>, many: seq<PlanStep>, a: int, b: int)
    requires few <= many && a in Nums(few) && b in Nums(many) && b !in Nums(few)
    ensures PlacedBefore(many, a, b)
  {
    var s :| s in few && s.num == a;
    var t :| t in many && t.num == b;
    var i :| 0 <= i < |few| && few[i] == s;
    var j :| 0 <= j < |many| && many[j] == t;
    AllNumbered(few);
    assert j >= |few|;
    assert many[i].num == a;
  }

  lemma AllNumbered(order: seq<PlanStep>)
    ensures forall j :: 0 <= j < |order| ==> order[j].num in Nums(order)
  {
  }

  // ---------------------------------------------------------------- what a visit reaches

  lemma EdgeThenReaches(steps: seq<PlanStep>, a: int, b: int, c: int)
    requires Edge(steps, a, b) && Reaches(steps, b, c)
    ensures Reaches(steps, a, c)
  {
    hide Edge;
    var p :| IsPath(steps, p) && p[0] == b && p[|p| - 1] == c;
    var q := [a] + p;
    forall i | 0 <= i < |q| - 1 ensures Edge(steps, q[i], q[i + 1]) {
      if i > 0 {
        assert q[i] == p[i - 1] && q[i + 1] == p[i];
      }
    }
    assert IsPath(steps, q);
  }

  /** One of the numbers that the plan contains leads to n. */
  ghost predicate SomeReaches(steps: seq<PlanStep>, list: seq<int>, n: int) {
    exists y :: y in list && y in Nums(steps) && Reaches(steps, y, n)
  }

  /** A visit only comes to what the step leads to. */
  lemma {:induction false} VisitReaches(steps: seq<PlanStep>, s: PlanStep, w: Walk)
    requires s in steps
    ensures var r := Visit(steps, s, w);
            (forall n :: n in r.visited ==> n in w.visited || Reaches(steps, s.num, n)) && w.order <= r.order
    decreases Nums(steps) - w.visited, 0, 1
  {
    hide Reaches, Edge;
    if s.num !in w.visited {
      var entered := w.(visited := w.visited + {s.num});
      assert s.num in Nums(steps);
      VisitDepsReaches(steps, s.dependsOn, entered);
      var r := VisitDeps(steps, s.dependsOn, entered);
      ReachesItself(steps, s.num);
      forall n | n in r.visited ensures n in w.visited || Reaches(steps, s.num, n) {
        if n !in entered.visited {
          var y :| y in s.dependsOn && y in Nums(steps) && Reaches(steps, y, n);
          OwnEdge(steps, s, y);
          EdgeThenReaches(steps, s.num, y, n);
        }
      }
    }
  }

  lemma OwnEdge(steps: seq<PlanStep>, s: PlanStep, d: int)
    requires s in steps && d in s.dependsOn && d in Nums(steps)
    ensures Edge(steps, s.num, d)
  {
  }

  lemma {:induction false} VisitDepsReaches(steps: seq<PlanStep>, deps: seq<int>, w: Walk)
    ensures var r := VisitDeps(steps, deps, w);
            (forall n :: n in r.visited ==> n in w.visited || SomeReaches(steps, deps, n)) && w.order <= r.order
    decreases Nums(steps) - w.visited, 1, |deps|
  {
    hide Reaches;
    if deps != [] {
      var w' := if deps[0] in Nums(steps) then Visit(steps, ByNum(steps, deps[0]), w) else w;
      if deps[0] in Nums(steps) {
        VisitReaches(steps, ByNum(steps, deps[0]), w);
      }
      VisitDepsReaches(steps, deps[1..], w');
      var r := VisitDeps(steps, deps, w);
      forall n | n in r.visited ensures n in w.visited || SomeReaches(steps, deps, n) {
        if n !in w'.visited {
          var y :| y in deps[1..] && y in Nums(steps) && Reaches(steps, y, n);
          assert y in deps;
        } else if n !in w.visited {
          assert deps[0] in deps;
        }
      }
    }
  }

  lemma {:induction false} VisitDepsSplit(steps: seq<PlanStep>, few: seq<int>, more: seq<int>, w: Walk)
    ensures VisitDeps(steps, few + more, w) == VisitDeps(steps, more, VisitDeps(steps, few, w))
    decreases |few|
  {
    if few == [] {
      assert few + more == more;
    } else {
      assert (few + more)[0] == few[0] && (few + more)[1..] == few[1..] + more;
      VisitDepsSplit(steps, few[1..], more, if few[0] in Nums(steps) then Visit(steps, ByNum(steps, few[0]), w) else w);
    }
  }

  lemma {:induction false} VisitAllSplit(steps: seq<PlanStep>, few: seq<PlanStep>, more: seq<PlanStep>, w: Walk)
    requires Among(few, steps) && Among(more, steps)
    ensures Among(few + more, steps)
    ensures VisitAll(steps, few + more, w) == VisitAll(steps, more, VisitAll(steps, few, w))
    decreases |few|
  {
    if few == [] {
      assert few + more == more;
    } else {
      assert (few + more)[0] == few[0] && (few + more)[1..] == few[1..] + more;
      assert few[0] in few && Among(few[1..], steps);
      VisitAllSplit(steps, few[1..], more, Visit(steps, few[0], w));
    }
  }

  /** A walk over some steps only comes to what they lead to. */
  lemma {:induction false} VisitAllReaches(steps: seq<PlanStep>, rest: seq<PlanStep>, w: Walk)
    requires Among(rest, steps)
    ensures var r := VisitAll(steps, rest, w);
            && (forall n :: n in r.visited ==> n in w.visited || exists s :: s in rest && Reaches(steps, s.num, n))
            && w.order <= r.order
    decreases |rest|
  {
    hide Reaches;
    if rest != [] {
      assert rest[0] in rest && Among(rest[1..], steps);
      VisitReaches(steps, rest[0], w);
      var w' := Visit(steps, rest[0], w);
      VisitAllReaches(steps, rest[1..], w');
    }
  }

  // ---------------------------------------------------------------- every plan: what is listed first comes first

  /** The walk after the input steps before position n. */
  ghost function Walked(steps: seq<PlanStep>, n: nat): Walk
    requires n <= |steps|
  {
    PrefixAmong(steps, n);
    VisitAll(steps, steps[..n], Walk({}, []))
  }

  lemma WalkedKeeps(steps: seq<PlanStep>, n: nat)
    requires n <= |steps|
    ensures var w := Walked(steps, n);
            WalkOk(steps, w, []) && w.visited == Nums(w.order) && Nums(steps[..n]) <= w.visited
  {
    hide WalkOk;
    PrefixAmong(steps, n);
    StartOk(steps);
    VisitAllKeeps(steps, steps[..n], Walk({}, []));
    NothingOpen(steps, Walked(steps, n));
  }

  lemma WalkedReaches(steps: seq<PlanStep>, n: nat)
    requires n <= |steps|
    ensures forall v :: v in Walked(steps, n).visited ==> exists c :: 0 <= c < n && Reaches(steps, steps[c].num, v)
  {
    hide Reaches;
    PrefixAmong(steps, n);
    VisitAllReaches(steps, steps[..n], Walk({}, []));
    forall v | v in Walked(steps, n).visited ensures exists c :: 0 <= c < n && Reaches(steps, steps[c].num, v) {
      var s :| s in steps[..n] && Reaches(steps, s.num, v);
      var c :| 0 <= c < n && steps[..n][c] == s;
      assert steps[c] == s;
    }
  }

  lemma WalkedGrows(steps: seq<PlanStep>, n: nat)
    requires n <= |steps|
    ensures Walked(steps, n).order <= OrderedSteps(steps)
  {
    PrefixAmong(steps, n);
    SuffixAmong(steps, n);
    VisitAllSplit(steps, steps[..n], steps[n..], Walk({}, []));
    assert steps[..n] + steps[n..] == steps;
    VisitAllReaches(steps, steps[n..], Walked(steps, n));
  }

  lemma WalkedOk(steps: seq<PlanStep>, n: nat)
    requires n <= |steps|
    ensures var w := Walked(steps, n);
            && WalkOk(steps, w, []) && w.visited == Nums(w.order) && w.order <= OrderedSteps(steps)
            && Nums(steps[..n]) <= w.visited
            && (forall v :: v in w.visited ==> exists c :: 0 <= c < n && Reaches(steps, steps[c].num, v))
  {
    hide Reaches, WalkOk, Walked;
    WalkedKeeps(steps, n);
    WalkedReaches(steps, n);
    WalkedGrows(steps, n);
  }

  lemma StartOk(steps: seq<PlanStep>)
    ensures WalkOk(steps, Walk({}, []), [])
  {
    assert Nums([]) == {};
  }

  lemma NothingOpen(steps: seq<PlanStep>, w: Walk)
    requires WalkOk(steps, w, [])
    ensures w.visited == Nums(w.order)
  {
    assert Nums([]) == {};
    forall n | n in w.visited ensures n in Nums(w.order) {
      assert n !in Open(w);
    }
  }

  lemma SuffixAmong(steps: seq<PlanStep>, n: nat)
    requires n <= |steps|
    ensures Among(steps[n..], steps)
  {
  }

  /** For every plan: an input step comes before whatever neither it nor an earlier input step leads to. */
  lemma InputStepsInOrder(steps: seq<PlanStep>, a: nat, v: int)
    requires a < |steps| && v in Nums(steps)
    requires forall c :: 0 <= c <= a ==> !Reaches(steps, steps[c].num, v)
    ensures PlacedBefore(OrderedSteps(steps), steps[a].num, v)
  {
    hide Reaches, WalkOk;
    WalkedOk(steps, a + 1);
    var w := Walked(steps, a + 1);
    assert steps[..a + 1][a] == steps[a] && steps[a] in steps[..a + 1];
    OrderedStepsSound(steps);
    LaterPlaced(w.order, OrderedSteps(steps), steps[a].num, v);
  }

  /** What an input step finds that no earlier one leads to. */
  ghost predicate Unreached(steps: seq<PlanStep>, i: nat, v: int)
    requires i <= |steps|
  {
    forall c :: 0 <= c < i ==> !Reaches(steps, steps[c].num, v)
  }

  /** Up to position k nothing that the step depends on leads to v. */
  ghost predicate UnreachedUpTo(steps: seq<PlanStep>, deps: seq<int>, k: nat, v: int)
    requires k < |deps|
  {
    forall m :: 0 <= m <= k && deps[m] in Nums(steps) ==> !Reaches(steps, deps[m], v)
  }

  lemma EntersFresh(steps: seq<PlanStep>, i: nat, v: int)
    requires i < |steps| && v in steps[i].dependsOn && v in Nums(steps) && Unreached(steps, i, v)
    ensures var w, s := Walked(steps, i), steps[i];
            && s.num !in w.visited && v !in w.visited && WalkOk(steps, w, []) && w.visited == Nums(w.order)
            && WalkOk(steps, w.(visited := w.visited + {s.num}), [s])
            && AllReach(InUse(w.(visited := w.visited + {s.num}), [s]), Nums([s]), s.num)
  {
    hide Reaches, WalkOk, Edge, AllReach;
    var w, s := Walked(steps, i), steps[i];
    WalkedOk(steps, i);
    if s.num in w.visited {
      var c :| 0 <= c < i && Reaches(steps, steps[c].num, s.num);
      OwnEdge(steps, s, v);
      ReachesThenEdge(steps, steps[c].num, s.num, v);
    }
    assert [] + [s] == [s];
    NobodyInside(InUse(w, [s]), s.num);
    EnterKeeps(steps, s, w, []);
  }

  lemma NobodyInside(used: seq<PlanStep>, a: int)
    ensures AllReach(used, Nums([]), a)
  {
  }

  /** The walk inside step i, after its dependencies up to position k. */
  ghost function Inside(steps: seq<PlanStep>, i: nat, k: nat): Walk
    requires i < |steps| && k < |steps[i].dependsOn|
  {
    var w, s := Walked(steps, i), steps[i];
    VisitDeps(steps, s.dependsOn[..k + 1], w.(visited := w.visited + {s.num}))
  }

  lemma InsideGrows(steps: seq<PlanStep>, i: nat, k: nat)
    requires i < |steps| && k < |steps[i].dependsOn| && steps[i].num !in Walked(steps, i).visited
    ensures Inside(steps, i, k).order <= OrderedSteps(steps)
  {
    var w, s := Walked(steps, i), steps[i];
    var entered, deps := w.(visited := w.visited + {s.num}), s.dependsOn;
    assert deps == deps[..k + 1] + deps[k + 1..];
    VisitDepsSplit(steps, deps[..k + 1], deps[k + 1..], entered);
    var inner := Inside(steps, i, k);
    VisitDepsReaches(steps, deps[k + 1..], inner);
    var left := VisitDeps(steps, deps[k + 1..], inner);
    WalkedNext(steps, i);
    WalkedOk(steps, i + 1);
    hide VisitDeps, Walked, OrderedSteps, WalkOk, Reaches;
    assert Visit(steps, s, w).order == left.order + [s];
  }

  lemma WalkedNext(steps: seq<PlanStep>, i: nat)
    requires i < |steps|
    ensures Walked(steps, i + 1) == Visit(steps, steps[i], Walked(steps, i))
  {
    hide Visit;
    PrefixAmong(steps, i);
    PrefixAmong(steps, i + 1);
    assert steps[..i + 1] == steps[..i] + [steps[i]];
    VisitAllSplit(steps, steps[..i], [steps[i]], Walk({}, []));
    VisitOne(steps, steps[i], Walked(steps, i));
    hide VisitAll;
  }

  lemma VisitOne(steps: seq<PlanStep>, s: PlanStep, w: Walk)
    requires s in steps
    ensures VisitAll(steps, [s], w) == Visit(steps, s, w)
  {
    assert [s][1..] == [];
  }

  lemma UnreachedList(steps: seq<PlanStep>, deps: seq<int>, k: nat, v: int)
    requires k < |deps| && UnreachedUpTo(steps, deps, k, v)
    ensures !SomeReaches(steps, deps[..k + 1], v)
  {
    hide Reaches;
    forall y | y in deps[..k + 1] && y in Nums(steps) ensures !Reaches(steps, y, v) {
      var m :| 0 <= m <= k && deps[..k + 1][m] == y;
      assert deps[m] == y;
    }
  }

  /** For every plan: of two dependencies of a step, the one listed first is placed first, unless an earlier input
      step, or something listed up to it, leads to the other. */
  lemma DependenciesInOrder(steps: seq<PlanStep>, i: nat, k: nat, l: nat)
    requires i < |steps| && k < l < |steps[i].dependsOn|
    requires steps[i].dependsOn[k] in Nums(steps) && steps[i].dependsOn[l] in Nums(steps)
    requires Unreached(steps, i, steps[i].dependsOn[l])
    requires UnreachedUpTo(steps, steps[i].dependsOn, k, steps[i].dependsOn[l])
    ensures PlacedBefore(OrderedSteps(steps), steps[i].dependsOn[k], steps[i].dependsOn[l])
  {
    hide Reaches, WalkOk, Edge, AllReach, Unreached, UnreachedUpTo, OrderedSteps, Inside;
    var s := steps[i];
    var d, v := s.dependsOn[k], s.dependsOn[l];
    assert v in s.dependsOn;
    EntersFresh(steps, i, v);
    InsideHas(steps, i, k);
    InsideLacks(steps, i, k, v);
    var inner := Inside(steps, i, k);
    InsideGrows(steps, i, k);
    NotItself(steps, s, s.dependsOn, k, v);
    OnlyOneOpen(steps, inner, s);
    OrderedStepsSound(steps);
    LaterPlaced(inner.order, OrderedSteps(steps), d, v);
  }

  /** The walk is inside step i, which nothing before led to. */
  ghost predicate Entering(steps: seq<PlanStep>, i: nat)
    requires i < |steps|
  {
    var s := steps[i];
    var entered := Walked(steps, i).(visited := Walked(steps, i).visited + {s.num});
    WalkOk(steps, entered, [s]) && AllReach(InUse(entered, [s]), Nums([s]), s.num)
  }

  lemma InsideHas(steps: seq<PlanStep>, i: nat, k: nat)
    requires i < |steps| && k < |steps[i].dependsOn| && Entering(steps, i) && steps[i].dependsOn[k] in Nums(steps)
    ensures WalkOk(steps, Inside(steps, i, k), [steps[i]])
    ensures steps[i].dependsOn[k] in Inside(steps, i, k).visited
  {
    hide WalkOk, AllReach, VisitDeps, Walked, Nums;
    var w, s := Walked(steps, i), steps[i];
    var entered, few := w.(visited := w.visited + {s.num}), s.dependsOn[..k + 1];
    assert s.dependsOn[k] == few[k] && few[k] in few && [s][0] == s;
    forall x | x in few ensures x in s.dependsOn {
      var m :| 0 <= m <= k && few[m] == x;
      assert s.dependsOn[m] == x;
    }
    VisitDepsKeeps(steps, few, entered, [s]);
  }

  lemma InsideLacks(steps: seq<PlanStep>, i: nat, k: nat, v: int)
    requires i < |steps| && k < |steps[i].dependsOn| && UnreachedUpTo(steps, steps[i].dependsOn, k, v)
    requires v !in Walked(steps, i).visited
    ensures v in Inside(steps, i, k).visited ==> v == steps[i].num
  {
    hide VisitDeps, Walked, Nums, SomeReaches, UnreachedUpTo;
    var w, s := Walked(steps, i), steps[i];
    UnreachedList(steps, s.dependsOn, k, v);
    VisitDepsReaches(steps, s.dependsOn[..k + 1], w.(visited := w.visited + {s.num}));
  }

  /** The dependency listed first is not the step itself, which leads to the other. */
  lemma NotItself(steps: seq<PlanStep>, s: PlanStep, deps: seq<int>, k: nat, v: int)
    requires s in steps && deps == s.dependsOn && k < |deps| && deps[k] in Nums(steps)
             && UnreachedUpTo(steps, deps, k, v)
    requires v in deps && v in Nums(steps)
    ensures deps[k] != s.num
  {
    hide Reaches, Edge;
    OwnEdge(steps, s, v);
    ReachesItself(steps, s.num);
    ReachesThenEdge(steps, s.num, s.num, v);
  }

  lemma OnlyOneOpen(steps: seq<PlanStep>, w: Walk, s: PlanStep)
    requires WalkOk(steps, w, [s])
    ensures s.num !in Nums(w.order) && s.num in w.visited && Nums(w.order) <= w.visited
    ensures forall n :: n in w.visited && n != s.num ==> n in Nums(w.order)
  {
    assert s in [s] && s.num in Open(w);
    forall n | n in w.visited && n != s.num ensures n in Nums(w.order) {
      assert n !in Nums([s]);
      assert n !in Open(w);
    }
  }

  // ---------------------------------------------------------------- repeated numbers

  /** Position j carries its number last. */
  ghost predicate LastOfItsNumber(steps: seq<PlanStep>, j: nat)
    requires j < |steps|
  {
    forall c :: j < c < |steps| ==> steps[c].num != steps[j].num
  }

  /** What is placed beyond w is s or the last step of its number. */
  ghost predicate PlacesLast(steps: seq<PlanStep>, w: Walk, r: Walk) {
    w.order <= r.order
    && forall t :: t in r.order ==>
         t in w.order || exists j :: 0 <= j < |steps| && steps[j] == t && LastOfItsNumber(steps, j)
  }

  lemma {:induction false} ByNumLast(steps: seq<PlanStep>, n: int)
    requires n in Nums(steps)
    ensures exists j :: 0 <= j < |steps| && steps[j] == ByNum(steps, n) && LastOfItsNumber(steps, j)
  {
    var last := |steps| - 1;
    if steps[last].num == n {
      assert steps[last] == ByNum(steps, n) && LastOfItsNumber(steps, last);
    } else {
      var init := steps[..last];
      NumsInit(steps, n);
      ByNumLast(init, n);
      var j :| 0 <= j < |init| && init[j] == ByNum(init, n) && LastOfItsNumber(init, j);
      forall c | j < c < |steps| ensures steps[c].num != steps[j].num {
        if c < last {
          assert init[c] == steps[c];
        }
      }
      assert steps[j] == ByNum(steps, n) && LastOfItsNumber(steps, j);
    }
  }

  lemma NumsInit(steps: seq<PlanStep>, n: int)
    requires n in Nums(steps) && steps[|steps| - 1].num != n
    ensures n in Nums(steps[..|steps| - 1])
  {
    var t :| t in steps && t.num == n;
    assert steps == steps[..|steps| - 1] + [steps[|steps| - 1]];
    assert t in steps[..|steps| - 1];
  }

  lemma {:induction false} VisitDepsPlacesLast(steps: seq<PlanStep>, deps: seq<int>, w: Walk)
    ensures PlacesLast(steps, w, VisitDeps(steps, deps, w))
    decreases Nums(steps) - w.visited, 1, |deps|
  {
    hide LastOfItsNumber;
    if deps != [] {
      var w' := w;
      if deps[0] in Nums(steps) {
        var s := ByNum(steps, deps[0]);
        ByNumLast(steps, deps[0]);
        w' := Visit(steps, s, w);
        if s.num !in w.visited {
          var entered := w.(visited := w.visited + {s.num});
          assert s.num in Nums(steps);
          VisitDepsPlacesLast(steps, s.dependsOn, entered);
        }
        assert PlacesLast(steps, w, w');
      }
      VisitDepsPlacesLast(steps, deps[1..], w');
    }
  }

  /** With repeated numbers: an input step that no earlier one leads to is placed itself. */
  lemma UnreachedIsPlaced(steps: seq<PlanStep>, a: nat)
    requires a < |steps| && Unreached(steps, a, steps[a].num)
    ensures steps[a] in OrderedSteps(steps)
  {
    hide Reaches, WalkOk, VisitDeps, OrderedSteps;
    WalkedOk(steps, a);
    WalkedNext(steps, a);
    WalkedOk(steps, a + 1);
    assert steps[a].num !in Walked(steps, a).visited;
    var w := Walked(steps, a + 1);
    hide Walked;
    assert w.order == w.order[..|w.order| - 1] + [steps[a]];
    InLonger(w.order, OrderedSteps(steps), steps[a]);
  }

  lemma InLonger(few: seq<PlanStep>, many: seq<PlanStep>, s: PlanStep)
    requires few <= many && s in few
    ensures s in many
  {
  }

  /** And a dependency that is come to first from a step is placed as the last step of its number. */
  lemma DependencyIsLast(steps: seq<PlanStep>, i: nat, k: nat) returns (j: nat)
    requires i < |steps| && k < |steps[i].dependsOn| && steps[i].dependsOn[k] in Nums(steps)
    requires steps[i].dependsOn[k] != steps[i].num && Unreached(steps, i, steps[i].dependsOn[k])
    ensures j < |steps| && steps[j].num == steps[i].dependsOn[k] && LastOfItsNumber(steps, j)
    ensures steps[j] in OrderedSteps(steps)
  {
    hide Reaches, WalkOk, Edge, AllReach, Unreached, OrderedSteps, LastOfItsNumber;
    var s, d := steps[i], steps[i].dependsOn[k];
    assert d in s.dependsOn;
    EntersFresh(steps, i, d);
    InsideHas(steps, i, k);
    var w, inner := Walked(steps, i), Inside(steps, i, k);
    VisitDepsPlacesLast(steps, s.dependsOn[..k + 1], w.(visited := w.visited + {s.num}));
    OnlyOneOpen(steps, inner, s);
    var t :| t in inner.order && t.num == d;
    AllIn(w.order);
    j :| 0 <= j < |steps| && steps[j] == t && LastOfItsNumber(steps, j);
    InsideGrows(steps, i, k);
    InLonger(inner.order, OrderedSteps(steps), t);
  }

  lemma AllIn(order: seq<PlanStep>)
    ensures forall t :: t in order ==> t.num in Nums(order)
  {
  }

  // ---------------------------------------------------------------- acyclic plans: which of two comes first

  ghost predicate Acyclic(steps: seq<PlanStep>) {
    forall a, b :: Edge(steps, a, b) ==> !Reaches(steps, b, a)
  }

  ghost predicate Leads(steps: seq<PlanStep>, y: int, n: int) {
    y in Nums(steps) && Reaches(steps, y, n)
  }

  /** What the step numbered y depends on. */
  ghost predicate DepsOf(steps: seq<PlanStep>, y: int, deps: seq<int>) {
    exists s :: s in steps && s.num == y && s.dependsOn == deps
  }

  /** Going through a list of numbers, u comes before v: the first number that leads to only one of them leads to u;
      or the first that leads to both is v itself, which u is then needed for, or is neither, and u comes before v in
      the list of what it depends on. */
  ghost predicate Earlier(steps: seq<PlanStep>, list: seq<int>, u: int, v: int, depth: nat)
    decreases depth, |list|
  {
    list != [] &&
    var y := list[0];
    if Leads(steps, y, u) && Leads(steps, y, v) then
      y != u
      && (y == v || (depth > 0 && exists deps :: DepsOf(steps, y, deps) && Earlier(steps, deps, u, v, depth - 1)))
    else if Leads(steps, y, u) then true
    else !Leads(steps, y, v) && Earlier(steps, list[1..], u, v, depth)
  }

  /** The numbers of the plan, in input order. */
  function InputNums(steps: seq<PlanStep>): seq<int> {
    if steps == [] then [] else [steps[0].num] + InputNums(steps[1..])
  }

  /** In an acyclic plan with unique numbers whatever a placed step leads to is placed. */
  lemma PlacedEdgeClosed(steps: seq<PlanStep>, w: Walk, stack: seq<PlanStep>, x: int, n: int)
    requires DistinctNums(steps) && Acyclic(steps) && WalkOk(steps, w, stack) && x in Nums(w.order) && Edge(steps, x, n)
    ensures n in Nums(w.order)
  {
    hide Reaches, Acyclic;
    var t :| t in w.order && t.num == x;
    var s :| s in steps && s.num == x && n in s.dependsOn;
    SameNumSameStep(steps, s, t);
    var i :| 0 <= i < |w.order| && w.order[i] == t;
    if !Before(w.order, i, n) {
      assert Reaches(InUse(w, stack), n, x);
      UsedAmong(steps, w, stack);
      ReachesAmongMore(InUse(w, stack), steps, n, x);
      NoWayBack(steps, x, n);
    }
    BeforeIsPlaced(w.order, i, n);
  }

  lemma NoWayBack(steps: seq<PlanStep>, a: int, b: int)
    requires Acyclic(steps) && Edge(steps, a, b)
    ensures !Reaches(steps, b, a)
  {
  }

  lemma BeforeIsPlaced(order: seq<PlanStep>, i: nat, n: int)
    requires i <= |order|
    ensures Before(order, i, n) ==> n in Nums(order)
  {
    if Before(order, i, n) {
      var j :| 0 <= j < i && order[j].num == n;
      assert order[j] in order;
    }
  }

  lemma UsedAmong(steps: seq<PlanStep>, w: Walk, stack: seq<PlanStep>)
    requires WalkOk(steps, w, stack)
    ensures Among(InUse(w, stack), steps)
  {
  }

  lemma {:induction false} PathClosed(steps: seq<PlanStep>, w: Walk, stack: seq<PlanStep>, p: seq<int>)
    requires DistinctNums(steps) && Acyclic(steps) && WalkOk(steps, w, stack) && IsPath(steps, p)
             && p[0] in Nums(w.order)
    ensures p[|p| - 1] in Nums(w.order)
    decreases |p|
  {
    hide Acyclic, WalkOk, Edge, Nums, DistinctNums;
    if |p| > 1 {
      PlacedEdgeClosed(steps, w, stack, p[0], p[1]);
      var q := p[1..];
      forall i | 0 <= i < |q| - 1 ensures Edge(steps, q[i], q[i + 1]) {
        assert q[i] == p[i + 1] && q[i + 1] == p[i + 2];
      }
      PathClosed(steps, w, stack, q);
    }
  }

  lemma PlacedClosed(steps: seq<PlanStep>, w: Walk, stack: seq<PlanStep>, x: int, n: int)
    requires DistinctNums(steps) && Acyclic(steps) && WalkOk(steps, w, stack) && x in Nums(w.order)
             && Reaches(steps, x, n)
    ensures n in Nums(w.order)
  {
    hide Acyclic, WalkOk, Nums, DistinctNums;
    var p :| IsPath(steps, p) && p[0] == x && p[|p| - 1] == n;
    PathClosed(steps, w, stack, p);
  }

  /** A walk about to go through a list: none of it is a step the walk is inside of. */
  ghost predicate Listing(steps: seq<PlanStep>, w: Walk, stack: seq<PlanStep>, list: seq<int>) {
    && DistinctNums(steps) && Acyclic(steps) && WalkOk(steps, w, stack)
    && (forall y :: y in list ==> y !in Nums(stack))
    && (stack != [] ==>
          && AllReach(InUse(w, stack), Nums(stack), stack[|stack| - 1].num)
          && forall y :: y in list ==> y in stack[|stack| - 1].dependsOn)
  }

  lemma ListReached(steps: seq<PlanStep>, w: Walk, stack: seq<PlanStep>, list: seq<int>, s: PlanStep)
    requires Listing(steps, w, stack, list) && s in steps && s.num in list
    ensures AllReach(InUse(w, stack + [s]), Nums(stack), s.num)
  {
    hide Acyclic, WalkOk, DistinctNums;
    if stack == [] {
      NobodyInside(InUse(w, stack + [s]), s.num);
    } else {
      DepReached(w, s, stack);
    }
  }

  /** Visiting the first of the list. */
  lemma FirstVisited(steps: seq<PlanStep>, w: Walk, stack: seq<PlanStep>, list: seq<int>)
    requires Listing(steps, w, stack, list) && list != [] && list[0] in Nums(steps)
    ensures var s := ByNum(steps, list[0]);
            var w' := Visit(steps, s, w);
            && Listing(steps, w', stack, list[1..]) && w.order <= w'.order && list[0] in Nums(w'.order)
            && (forall n :: n in w'.visited ==> n in w.visited || Reaches(steps, list[0], n))
            && (forall n :: Reaches(steps, list[0], n) ==> n in Nums(w'.order))
  {
    hide Acyclic, DistinctNums, AllReach, EdgesHonoured, Reaches, Among;
    var s := ByNum(steps, list[0]);
    ListReached(steps, w, stack, list, s);
    VisitKeeps(steps, s, w, stack);
    VisitReaches(steps, s, w);
    var w' := Visit(steps, s, w);
    VisitedIsPlaced(steps, w', stack, list[0]);
    forall n | Reaches(steps, list[0], n) ensures n in Nums(w'.order) {
      PlacedClosed(steps, w', stack, list[0], n);
    }
    if stack != [] {
      UsedAppended(w, w', stack);
      AllReachAmongMore(InUse(w, stack), InUse(w', stack), Nums(stack), stack[|stack| - 1].num);
    }
    hide WalkOk, Visit, Nums;
    assert forall y :: y in list[1..] ==> y in list;
  }

  lemma VisitedIsPlaced(steps: seq<PlanStep>, w: Walk, stack: seq<PlanStep>, n: int)
    requires WalkOk(steps, w, stack) && n in w.visited && n !in Nums(stack)
    ensures n in Nums(w.order)
  {
    hide EdgesHonoured, Among, DistinctNums;
    assert n !in Open(w);
  }

  /** Going through a list keeps the walk well formed. */
  lemma {:induction false} ListKeeps(steps: seq<PlanStep>, w: Walk, stack: seq<PlanStep>, list: seq<int>)
    requires Listing(steps, w, stack, list)
    ensures var r := VisitDeps(steps, list, w); WalkOk(steps, r, stack) && w.order <= r.order
    decreases |list|
  {
    hide Acyclic, DistinctNums, AllReach, WalkOk, Reaches, Nums, Visit;
    if list != [] {
      if list[0] in Nums(steps) {
        FirstVisited(steps, w, stack, list);
        ListKeeps(steps, Visit(steps, ByNum(steps, list[0]), w), stack, list[1..]);
      } else {
        assert forall y :: y in list[1..] ==> y in list;
        ListKeeps(steps, w, stack, list[1..]);
      }
    }
  }

  lemma StackVisited(steps: seq<PlanStep>, w: Walk, stack: seq<PlanStep>)
    requires WalkOk(steps, w, stack)
    ensures Nums(stack) <= w.visited && Nums(w.order) <= w.visited
  {
  }

  /** A number new to the walk, and visited by the end of the list, is placed by then. */
  lemma NewIsPlaced(steps: seq<PlanStep>, w: Walk, stack: seq<PlanStep>, list: seq<int>, n: int)
    requires Listing(steps, w, stack, list) && n !in w.visited && n in VisitDeps(steps, list, w).visited
    ensures n in Nums(VisitDeps(steps, list, w).order)
  {
    hide Acyclic, DistinctNums, AllReach, WalkOk, Reaches, Nums, VisitDeps;
    ListKeeps(steps, w, stack, list);
    StackVisited(steps, w, stack);
    VisitedIsPlaced(steps, VisitDeps(steps, list, w), stack, n);
  }

  /** The step numbered y is not visited yet when y leads to something new. */
  lemma LeaderIsNew(steps: seq<PlanStep>, w: Walk, stack: seq<PlanStep>, list: seq<int>, y: int, n: int)
    requires Listing(steps, w, stack, list) && y in list && Reaches(steps, y, n) && n !in w.visited
    ensures y !in w.visited
  {
    hide Acyclic, DistinctNums, AllReach, WalkOk, Reaches, Nums;
    if y in w.visited {
      VisitedIsPlaced(steps, w, stack, y);
      PlacedClosed(steps, w, stack, y, n);
      StackVisited(steps, w, stack);
    }
  }

  /** Inside the first step of the list, its own dependencies are the list. */
  lemma InnerListing(steps: seq<PlanStep>, w: Walk, stack: seq<PlanStep>, list: seq<int>, s: PlanStep)
    requires Listing(steps, w, stack, list) && s in steps && s.num in list && s.num !in w.visited
    ensures Listing(steps, w.(visited := w.visited + {s.num}), stack + [s], s.dependsOn)
  {
    hide Acyclic, DistinctNums, AllReach, WalkOk, Reaches, Nums, Edge, Among;
    ListReached(steps, w, stack, list, s);
    EnterKeeps(steps, s, w, stack);
    var entered, inside := w.(visited := w.visited + {s.num}), stack + [s];
    assert inside[|inside| - 1] == s;
    UsedAmong(steps, entered, inside);
    forall d | d in s.dependsOn ensures d !in Nums(inside) {
      if d in Nums(inside) {
        InsideReaches(InUse(entered, inside), Nums(inside), d, s.num);
        ReachesAmongMore(InUse(entered, inside), steps, d, s.num);
        StackInPlan(steps, entered, inside, d);
        OwnEdge(steps, s, d);
        NoWayBack(steps, s.num, d);
      }
    }
  }

  lemma InsideReaches(used: seq<PlanStep>, from: set<int>, d: int, a: int)
    requires AllReach(used, from, a) && d in from
    ensures Reaches(used, d, a)
  {
  }

  lemma StackInPlan(steps: seq<PlanStep>, w: Walk, stack: seq<PlanStep>, d: int)
    requires WalkOk(steps, w, stack) && d in Nums(stack)
    ensures d in Nums(steps)
  {
  }

  lemma OneDeps(steps: seq<PlanStep>, s: PlanStep, deps: seq<int>)
    requires DistinctNums(steps) && s in steps
    ensures DepsOf(steps, s.num, deps) <==> deps == s.dependsOn
  {
    if DepsOf(steps, s.num, deps) {
      var t :| t in steps && t.num == s.num && t.dependsOn == deps;
      SameNumSameStep(steps, s, t);
    }
  }

  /** The one of the two that comes first, and the other. */
  ghost predicate InOrder(order: seq<PlanStep>, uFirst: bool, u: int, v: int) {
    if uFirst then PlacedBefore(order, u, v) else PlacedBefore(order, v, u)
  }

  lemma FewerLeft(steps: seq<PlanStep>, visited: set<int>, y: int)
    requires y in Nums(steps) && y !in visited
    ensures |Nums(steps) - (visited + {y})| < |Nums(steps) - visited|
  {
    assert Nums(steps) - (visited + {y}) == (Nums(steps) - visited) - {y};
  }

  lemma FewerOnly(steps: seq<PlanStep>, visited: set<int>, more: set<int>)
    requires visited <= more
    ensures |Nums(steps) - more| <= |Nums(steps) - visited|
  {
    var a, b := Nums(steps) - more, Nums(steps) - visited;
    assert a <= b && b == a + (b - a);
  }

  /** The first number of the list leads to both. */
  lemma {:induction false} BothLed(steps: seq<PlanStep>, w: Walk, stack: seq<PlanStep>, list: seq<int>, u: int, v: int,
                                   depth: nat)
    requires Listing(steps, w, stack, list) && u != v && u !in w.visited && v !in w.visited
    requires list != [] && Leads(steps, list[0], u) && Leads(steps, list[0], v)
    requires |Nums(steps) - w.visited| <= depth
    ensures InOrder(Visit(steps, ByNum(steps, list[0]), w).order, Earlier(steps, list, u, v, depth), u, v)
    decreases Nums(steps) - w.visited, 0, 0
  {
    hide Acyclic, DistinctNums, AllReach, WalkOk, Reaches, Edge, Among, VisitDeps, PlacedBefore, DepsOf, Nums;
    var y, s := list[0], ByNum(steps, list[0]);
    var w' := Visit(steps, s, w);
    LeaderIsNew(steps, w, stack, list, y, u);
    FirstVisited(steps, w, stack, list);
    var entered := w.(visited := w.visited + {y});
    var inner := VisitDeps(steps, s.dependsOn, entered);
    FewerLeft(steps, w.visited, y);
    InnerListing(steps, w, stack, list, s);
    assert w'.order == inner.order + [s];
    PlacedInside(inner.order, s, u);
    PlacedInside(inner.order, s, v);
    if u == y {
      LastComesLast(inner.order, s, v);
    } else if v == y {
      LastComesLast(inner.order, s, u);
    } else {
      ListKeeps(steps, entered, stack + [s], s.dependsOn);
      StackVisited(steps, inner, stack + [s]);
      ListOrder(steps, entered, stack + [s], s.dependsOn, u, v, depth - 1);
      OnlyDeps(steps, s, u, v, depth - 1);
      InOrderLonger(inner.order, w'.order, Earlier(steps, s.dependsOn, u, v, depth - 1), u, v);
    }
  }

  lemma OnlyDeps(steps: seq<PlanStep>, s: PlanStep, u: int, v: int, depth: nat)
    requires DistinctNums(steps) && s in steps
    ensures (exists deps :: DepsOf(steps, s.num, deps) && Earlier(steps, deps, u, v, depth))
            <==> Earlier(steps, s.dependsOn, u, v, depth)
  {
    hide Earlier, DepsOf, DistinctNums;
    OneDeps(steps, s, s.dependsOn);
    if deps :| DepsOf(steps, s.num, deps) && Earlier(steps, deps, u, v, depth) {
      OneDeps(steps, s, deps);
    }
  }

  lemma PlacedInside(order: seq<PlanStep>, s: PlanStep, n: int)
    ensures n in Nums(order + [s]) <==> n in Nums(order) || n == s.num
  {
    NumsAppend(order, s);
  }

  lemma LastComesLast(order: seq<PlanStep>, s: PlanStep, n: int)
    requires n in Nums(order)
    ensures PlacedBefore(order + [s], n, s.num)
  {
    var t :| t in order && t.num == n;
    var i :| 0 <= i < |order| && order[i] == t;
    assert (order + [s])[i].num == n && (order + [s])[|order|].num == s.num;
  }

  lemma InOrderLonger(few: seq<PlanStep>, many: seq<PlanStep>, uFirst: bool, u: int, v: int)
    requires few <= many && InOrder(few, uFirst, u, v)
    ensures InOrder(many, uFirst, u, v)
  {
    hide PlacedBefore;
    if uFirst {
      StaysBefore(few, many, u, v);
    } else {
      StaysBefore(few, many, v, u);
    }
  }

  /** Two numbers new to the walk are placed as the list has them. */
  lemma {:induction false} ListOrder(steps: seq<PlanStep>, w: Walk, stack: seq<PlanStep>, list: seq<int>, u: int,
                                     v: int, depth: nat)
    requires Listing(steps, w, stack, list) && u != v && u !in w.visited && v !in w.visited
    requires u in VisitDeps(steps, list, w).visited && v in VisitDeps(steps, list, w).visited
    requires |Nums(steps) - w.visited| <= depth
    ensures InOrder(VisitDeps(steps, list, w).order, Earlier(steps, list, u, v, depth), u, v)
    decreases Nums(steps) - w.visited, 1, |list|
  {
    hide Acyclic, DistinctNums, AllReach, WalkOk, Reaches, Edge, Among, PlacedBefore, DepsOf, Nums, Visit;
    var r := VisitDeps(steps, list, w);
    NewIsPlaced(steps, w, stack, list, u);
    NewIsPlaced(steps, w, stack, list, v);
    if list != [] {
      var y, more := list[0], list[1..];
      if y in Nums(steps) {
        FirstVisited(steps, w, stack, list);
        var w' := Visit(steps, ByNum(steps, y), w);
        StackVisited(steps, w', stack);
        ListKeeps(steps, w', stack, more);
        FewerOnly(steps, w.visited, w'.visited);
        if Leads(steps, y, u) && Leads(steps, y, v) {
          BothLed(steps, w, stack, list, u, v, depth);
          InOrderLonger(w'.order, r.order, Earlier(steps, list, u, v, depth), u, v);
        } else if Leads(steps, y, u) {
          LaterPlaced(w'.order, r.order, u, v);
        } else if Leads(steps, y, v) {
          LaterPlaced(w'.order, r.order, v, u);
        } else {
          ListOrder(steps, w', stack, more, u, v, depth);
        }
      } else {
        assert forall x :: x in more ==> x in list;
        ListOrder(steps, w, stack, more, u, v, depth);
      }
    }
  }

  // ---------------------------------------------------------------- the whole plan

  lemma NoneOpenAtFirst()
    ensures Nums([]) == {}
  {
  }

  lemma OwnByNum(steps: seq<PlanStep>, s: PlanStep)
    requires DistinctNums(steps) && s in steps
    ensures s.num in Nums(steps) && ByNum(steps, s.num) == s
  {
    assert s.num in Nums(steps);
    SameNumSameStep(steps, s, ByNum(steps, s.num));
  }

  /** Going through the steps of the plan is going through their numbers. */
  lemma {:induction false} VisitAllIsList(steps: seq<PlanStep>, rest: seq<PlanStep>, w: Walk)
    requires DistinctNums(steps) && forall s :: s in rest ==> s in steps
    ensures VisitAll(steps, rest, w) == VisitDeps(steps, InputNums(rest), w)
    decreases |rest|
  {
    if rest != [] {
      hide DistinctNums, Nums, Visit;
      OwnByNum(steps, rest[0]);
      VisitAllIsList(steps, rest[1..], Visit(steps, rest[0], w));
      assert InputNums(rest)[0] == rest[0].num && InputNums(rest)[1..] == InputNums(rest[1..]);
    }
  }

  lemma {:induction false} FewNums(steps: seq<PlanStep>)
    ensures |Nums(steps)| <= |steps|
  {
    if steps == [] {
      NoneOpenAtFirst();
    } else {
      var rest, s := steps[..|steps| - 1], steps[|steps| - 1];
      FewNums(rest);
      NumsAppend(rest, s);
      assert steps == rest + [s];
    }
  }

  lemma OneWayOnly(order: seq<PlanStep>, u: int, v: int)
    requires DistinctNums(order) && PlacedBefore(order, u, v)
    ensures !PlacedBefore(order, v, u)
  {
    var i, j :| 0 <= i < j < |order| && order[i].num == u && order[j].num == v;
    forall k, l | 0 <= k < l < |order| && order[k].num == v
      ensures order[l].num != u
    {
      assert k == j && l != i;
    }
  }

  lemma StartListing(steps: seq<PlanStep>)
    requires DistinctNums(steps) && Acyclic(steps)
    ensures Listing(steps, Walk({}, []), [], InputNums(steps))
  {
    hide Acyclic, DistinctNums, WalkOk, InputNums;
    StartOk(steps);
    NoneOpenAtFirst();
  }

  /** For every acyclic plan with unique numbers the whole order is fixed by what the plan says: of two steps the one
      that comes first going through the input from the top, dependencies in the order they are listed. */
  lemma OrderIsEarlier(steps: seq<PlanStep>, u: int, v: int)
    requires DistinctNums(steps) && Acyclic(steps) && u != v && u in Nums(steps) && v in Nums(steps)
    ensures PlacedBefore(OrderedSteps(steps), u, v) <==> Earlier(steps, InputNums(steps), u, v, |steps|)
  {
    hide Acyclic, DistinctNums, WalkOk, InputNums, Listing, PlacedBefore, Earlier, Nums, VisitDeps, VisitAll;
    var w, list := Walk({}, []), InputNums(steps);
    StartListing(steps);
    VisitAllIsList(steps, steps, w);
    EverythingVisited(steps);
    FewNums(steps);
    assert Nums(steps) - w.visited == Nums(steps);
    ListOrder(steps, w, [], list, u, v, |steps|);
    OrderedStepsSound(steps);
    if PlacedBefore(OrderedSteps(steps), v, u) {
      OneWayOnly(OrderedSteps(steps), v, u);
    }
  }

  lemma EverythingVisited(steps: seq<PlanStep>)
    ensures Nums(steps) <= VisitAll(steps, steps, Walk({}, [])).visited
  {
    hide WalkOk, Nums, VisitAll;
    StartOk(steps);
    VisitAllKeeps(steps, steps, Walk({}, []));
  }
}
