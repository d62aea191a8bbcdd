/** The Coordinator's plan ordering: a depth-first walk over an arbitrary, possibly cyclic, plan.

    The walk is specified by the functions Visit and VisitDeps over a value state (visited numbers,
    order so far); the class PlanOrder runs it the way the program does, over mutable fields.
 */
module PlanOrdering {

  /** One step of a delegation plan.  The numbers are whatever the model wrote: they may repeat,
      dangle or form cycles. */
  datatype PlanStep = PlanStep(num: int, agent: string, goal: string, artifactType: string, dependsOn: seq<int>)

  /** The walk's state: the numbers already visited and the steps already placed. */
  datatype Walk = Walk(visited: set<int>, order: seq<PlanStep>)

  function Nums(steps: seq<PlanStep>): set<int> {
    set s | s in steps :: s.num
  }

  /** The step a number stands for: the last one that carries it. */
  function ByNum(steps: seq<PlanStep>, n: int): (s: PlanStep)
    requires n in Nums(steps)
    ensures s in steps && s.num == n
    ensures exists i :: 0 <= i < |steps| && steps[i] == s && forall j :: i < j < |steps| ==> steps[j].num != n
  {
    var last := steps[|steps| - 1];
    if last.num == n then last else
      assert n in Nums(steps[..|steps| - 1]) by {
        var t :| t in steps && t.num == n;
        assert steps == steps[..|steps| - 1] + [last];
        assert t in steps[..|steps| - 1];
      }
      ByNum(steps[..|steps| - 1], n)
  }

  /** Visit one step: mark it, visit its dependencies in turn, then place it. */
  function Visit(steps: seq<PlanStep>, s: PlanStep, w: Walk): (r: Walk)
    requires s in steps
    ensures w.visited <= r.visited
    decreases Nums(steps) - w.visited, 0, 1
  {
    if s.num in w.visited then w
    else
      assert s.num in Nums(steps);
      var r := VisitDeps(steps, s.dependsOn, w.(visited := w.visited + {s.num}));
      r.(order := r.order + [s])
  }

  /** Visit the dependencies that the plan contains, left to right. */
  function VisitDeps(steps: seq<PlanStep>, deps: seq<int>, w: Walk): (r: Walk)
    ensures w.visited <= r.visited
    decreases Nums(steps) - w.visited, 1, |deps|
  {
    if deps == [] then w
    else if deps[0] in Nums(steps) then
      var w' := Visit(steps, ByNum(steps, deps[0]), w);
      VisitDeps(steps, deps[1..], w')
    else VisitDeps(steps, deps[1..], w)
  }

  /** Visit every step of a suffix of the plan, in input order. */
  function VisitAll(steps: seq<PlanStep>, rest: seq<PlanStep>, w: Walk): (r: Walk)
    requires forall s :: s in rest ==> s in steps
    ensures w.visited <= r.visited
  {
    if rest == [] then w else VisitAll(steps, rest[1..], Visit(steps, rest[0], w))
  }

  function OrderedSteps(steps: seq<PlanStep>): seq<PlanStep> {
    VisitAll(steps, steps, Walk({}, [])).order
  }

  // ---------------------------------------------------------------- the dependency graph

  /** One of these steps is numbered b, and one numbered a depends on it. */
  ghost predicate Edge(steps: seq<PlanStep>, a: int, b: int) {
    b in Nums(steps) && exists s :: s in steps && s.num == a && b in s.dependsOn
  }

  ghost predicate IsPath(steps: seq<PlanStep>, p: seq<int>) {
    p != [] && forall i :: 0 <= i < |p| - 1 ==> Edge(steps, p[i], p[i + 1])
  }

  /** Zero or more dependency edges among these steps lead from a to b. */
  ghost predicate Reaches(steps: seq<PlanStep>, a: int, b: int) {
    exists p :: IsPath(steps, p) && p[0] == a && p[|p| - 1] == b
  }

  lemma ReachesItself(steps: seq<PlanStep>, a: int)
    ensures Reaches(steps, a, a)
  {
    assert IsPath(steps, [a]);
  }

  lemma ReachesThenEdge(steps: seq<PlanStep>, a: int, b: int, c: int)
    requires Reaches(steps, a, b) && Edge(steps, b, c)
    ensures Reaches(steps, a, c)
  {
    var p :| IsPath(steps, p) && p[0] == a && p[|p| - 1] == b;
    assert IsPath(steps, p + [c]) && (p + [c])[0] == a;
  }

  ghost predicate Among(few: seq<PlanStep>, many: seq<PlanStep>) {
    forall s :: s in few ==> s in many
  }

  lemma EdgeAmongMore(few: seq<PlanStep>, many: seq<PlanStep>, a: int, b: int)
    requires Among(few, many) && Edge(few, a, b)
    ensures Edge(many, a, b)
  {
    var t :| t in few && t.num == b;
    assert t in many;
  }

  lemma ReachesAmongMore(few: seq<PlanStep>, many: seq<PlanStep>, a: int, b: int)
    requires Among(few, many) && Reaches(few, a, b)
    ensures Reaches(many, a, b)
  {
    hide Edge, Among;
    var p :| IsPath(few, p) && p[0] == a && p[|p| - 1] == b;
    forall i | 0 <= i < |p| - 1 ensures Edge(many, p[i], p[i + 1]) {
      EdgeAmongMore(few, many, p[i], p[i + 1]);
    }
    assert IsPath(many, p);
  }

  // ---------------------------------------------------------------- what every visit keeps

  ghost predicate Before(order: seq<PlanStep>, i: nat, d: int)
    requires i <= |order|
  {
    exists j :: 0 <= j < i && order[j].num == d
  }

  /** Every placed step comes after each dependency that the plan contains, unless the edge lies on a cycle of the
      steps in use (from the dependency they lead back to the step). */
  ghost predicate EdgesHonoured(steps: seq<PlanStep>, order: seq<PlanStep>, used: seq<PlanStep>) {
    forall i, d :: 0 <= i < |order| && d in order[i].dependsOn && d in Nums(steps) ==>
      Before(order, i, d) || Reaches(used, d, order[i].num)
  }

  lemma HonouredAmongMore(steps: seq<PlanStep>, order: seq<PlanStep>, few: seq<PlanStep>, many: seq<PlanStep>)
    requires EdgesHonoured(steps, order, few) && Among(few, many)
    ensures EdgesHonoured(steps, order, many)
  {
    hide Reaches, Among, Before;
    forall i, d | 0 <= i < |order| && d in order[i].dependsOn && d in Nums(steps)
      ensures Before(order, i, d) || Reaches(many, d, order[i].num)
    {
      if Reaches(few, d, order[i].num) {
        ReachesAmongMore(few, many, d, order[i].num);
      }
    }
  }

  ghost predicate DistinctNums(order: seq<PlanStep>) {
    forall i, j :: 0 <= i < j < |order| ==> order[i].num != order[j].num
  }

  /** Numbers visited but not yet placed: the steps the walk is inside of. */
  ghost function Open(w: Walk): set<int> {
    w.visited - Nums(w.order)
  }

  /** The steps placed and those the walk is inside of. */
  function InUse(w: Walk, stack: seq<PlanStep>): seq<PlanStep> {
    w.order + stack
  }

  ghost predicate WalkOk(steps: seq<PlanStep>, w: Walk, stack: seq<PlanStep>) {
    && DistinctNums(w.order)
    && Nums(w.order) <= w.visited <= Nums(steps) && Open(w) == Nums(stack)
    && Among(w.order, steps) && Among(stack, steps)
    && EdgesHonoured(steps, w.order, InUse(w, stack))
  }

  ghost predicate AllReach(steps: seq<PlanStep>, from: set<int>, a: int) {
    forall g :: g in from ==> Reaches(steps, g, a)
  }

  lemma AllReachAmongMore(few: seq<PlanStep>, many: seq<PlanStep>, from: set<int>, a: int)
    requires AllReach(few, from, a) && Among(few, many)
    ensures AllReach(many, from, a)
  {
    hide Reaches, Among;
    forall g | g in from ensures Reaches(many, g, a) {
      ReachesAmongMore(few, many, g, a);
    }
  }

  /** The walk enters a step. */
  lemma EnterKeeps(steps: seq<PlanStep>, s: PlanStep, w: Walk, stack: seq<PlanStep>)
    requires s in steps && WalkOk(steps, w, stack) && s.num !in w.visited
    requires AllReach(InUse(w, stack + [s]), Nums(stack), s.num)
    ensures var entered := w.(visited := w.visited + {s.num});
            WalkOk(steps, entered, stack + [s]) && AllReach(InUse(entered, stack + [s]), Nums(stack + [s]), s.num)
  {
    var entered := w.(visited := w.visited + {s.num});
    HonouredAmongMore(steps, w.order, InUse(w, stack), InUse(entered, stack + [s]));
    NumsAppend(stack, s);
    ReachesItself(InUse(w, stack + [s]), s.num);
    assert s.num in Nums(steps);
    hide EdgesHonoured, Reaches;
    assert Open(entered) == Open(w) + {s.num};
  }

  /** Visiting keeps the walk well formed, closes everything it opens, only appends, and marks s. */
  lemma {:induction false} VisitKeeps(steps: seq<PlanStep>, s: PlanStep, w: Walk, stack: seq<PlanStep>)
    requires s in steps && WalkOk(steps, w, stack)
    requires s.num !in w.visited ==> AllReach(InUse(w, stack + [s]), Nums(stack), s.num)
    ensures var r := Visit(steps, s, w);
            WalkOk(steps, r, stack) && w.order <= r.order && s.num in r.visited
    decreases Nums(steps) - w.visited, 0, 1
  {
    if s.num !in w.visited {
      var entered := w.(visited := w.visited + {s.num});
      assert s.num in Nums(steps);
      EnterKeeps(steps, s, w, stack);
      VisitDepsKeeps(steps, s.dependsOn, entered, stack + [s]);
      var inner := VisitDeps(steps, s.dependsOn, entered);
      UsedAppended(entered, inner, stack + [s]);
      AllReachAmongMore(InUse(entered, stack + [s]), InUse(inner, stack + [s]), Nums(stack + [s]), s.num);
      hide WalkOk, AllReach, Nums;
      PlaceKeeps(steps, s, inner, stack);
    }
  }

  lemma UsedAppended(w: Walk, r: Walk, stack: seq<PlanStep>)
    requires w.order <= r.order
    ensures Among(InUse(w, stack), InUse(r, stack))
  {
    assert r.order == w.order + r.order[|w.order|..];
  }

  lemma NumsAppend(order: seq<PlanStep>, s: PlanStep)
    ensures Nums(order + [s]) == Nums(order) + {s.num}
  {
    forall n | n in Nums(order) + {s.num}
      ensures n in Nums(order + [s])
    {
      if n == s.num {
        assert (order + [s])[|order|] == s;
      } else {
        var t :| t in order && t.num == n;
        assert t in order + [s];
      }
    }
  }

  /** The edges of a step placed now. */
  lemma PlacedEdge(steps: seq<PlanStep>, s: PlanStep, w: Walk, used: seq<PlanStep>, d: int)
    requires AllReach(used, Open(w), s.num) && d in w.visited
    ensures Before(w.order + [s], |w.order|, d) || Reaches(used, d, s.num)
  {
    hide Reaches;
    if d in Nums(w.order) {
      var t :| t in w.order && t.num == d;
      var j :| 0 <= j < |w.order| && w.order[j] == t;
      assert (w.order + [s])[j].num == d;
    } else {
      assert d in Open(w);
    }
  }

  lemma BeforeAppended(order: seq<PlanStep>, s: PlanStep, i: nat, d: int)
    requires i <= |order| && Before(order, i, d)
    ensures Before(order + [s], i, d)
  {
    var j :| 0 <= j < i && order[j].num == d;
    assert (order + [s])[j].num == d;
  }

  lemma DistinctAppended(order: seq<PlanStep>, s: PlanStep)
    requires DistinctNums(order) && s.num !in Nums(order)
    ensures DistinctNums(order + [s])
  {
    forall i, j | 0 <= i < j < |order + [s]|
      ensures (order + [s])[i].num != (order + [s])[j].num
    {
      if j == |order| {
        assert order[i] in order && order[i].num in Nums(order);
      }
    }
  }

  lemma SameInUse(order: seq<PlanStep>, s: PlanStep, stack: seq<PlanStep>)
    ensures Among(order + (stack + [s]), order + [s] + stack)
  {
  }

  lemma StackNums(w: Walk, s: PlanStep, stack: seq<PlanStep>)
    requires Open(w) == Nums(stack) + {s.num} && s.num !in Nums(stack)
    ensures Open(w.(order := w.order + [s])) == Nums(stack)
  {
    NumsAppend(w.order, s);
  }

  /** Placing the innermost step, when its dependencies are all visited, keeps the walk well formed. */
  lemma PlaceKeeps(steps: seq<PlanStep>, s: PlanStep, w: Walk, stack: seq<PlanStep>)
    requires WalkOk(steps, w, stack + [s]) && AllReach(InUse(w, stack + [s]), Nums(stack + [s]), s.num)
    requires s.num !in Nums(stack) && forall d :: d in s.dependsOn && d in Nums(steps) ==> d in w.visited
    ensures WalkOk(steps, w.(order := w.order + [s]), stack)
  {
    var order, used := w.order + [s], InUse(w, stack + [s]);
    NumsAppend(w.order, s);
    NumsAppend(stack, s);
    assert s in stack + [s] && s.num in Open(w);
    DistinctAppended(w.order, s);
    StackNums(w, s, stack);
    SameInUse(w.order, s, stack);
    forall i, d | 0 <= i < |order| && d in order[i].dependsOn && d in Nums(steps)
      ensures Before(order, i, d) || Reaches(used, d, order[i].num)
    {
      hide Reaches, Before, AllReach, Among, DistinctNums, Nums;
      if i < |w.order| {
        assert order[i] == w.order[i];
        if Before(w.order, i, d) {
          BeforeAppended(w.order, s, i, d);
        }
      } else {
        PlacedEdge(steps, s, w, used, d);
      }
    }
    HonouredAmongMore(steps, order, used, order + stack);
    hide EdgesHonoured, Nums, AllReach, DistinctNums;
  }

  /** The innermost step's dependency is reached from every step the walk is inside of. */
  lemma DepReached(w: Walk, dep: PlanStep, stack: seq<PlanStep>)
    requires stack != [] && dep.num in stack[|stack| - 1].dependsOn
    requires AllReach(InUse(w, stack), Nums(stack), stack[|stack| - 1].num)
    ensures AllReach(InUse(w, stack + [dep]), Nums(stack), dep.num)
  {
    var owner, used := stack[|stack| - 1], InUse(w, stack + [dep]);
    assert owner in used && dep in used;
    assert Among(InUse(w, stack), used);
    AllReachAmongMore(InUse(w, stack), used, Nums(stack), owner.num);
    assert Edge(used, owner.num, dep.num);
    hide Edge, Reaches, Nums;
    forall g | g in Nums(stack) ensures Reaches(used, g, dep.num) {
      ReachesThenEdge(used, g, owner.num, dep.num);
    }
  }

  lemma {:induction false} VisitDepsKeeps(steps: seq<PlanStep>, deps: seq<int>, w: Walk, stack: seq<PlanStep>)
    requires stack != [] && WalkOk(steps, w, stack)
    requires AllReach(InUse(w, stack), Nums(stack), stack[|stack| - 1].num)
    requires forall d :: d in deps ==> d in stack[|stack| - 1].dependsOn
    ensures var r := VisitDeps(steps, deps, w);
            && WalkOk(steps, r, stack) && w.order <= r.order
            && forall d :: d in deps && d in Nums(steps) ==> d in r.visited
    decreases Nums(steps) - w.visited, 1, |deps|
  {
    if deps != [] {
      hide WalkOk, AllReach, Nums, Among;
      var w' := w;
      if deps[0] in Nums(steps) {
        var dep := ByNum(steps, deps[0]);
        assert dep.num == deps[0] && deps[0] in deps;
        DepReached(w, dep, stack);
        VisitKeeps(steps, dep, w, stack);
        w' := Visit(steps, dep, w);
        UsedAppended(w, w', stack);
        AllReachAmongMore(InUse(w, stack), InUse(w', stack), Nums(stack), stack[|stack| - 1].num);
      }
      assert forall d :: d in deps <==> d == deps[0] || d in deps[1..];
      VisitDepsKeeps(steps, deps[1..], w', stack);
    }
  }

  lemma {:induction false} VisitAllKeeps(steps: seq<PlanStep>, rest: seq<PlanStep>, w: Walk)
    requires forall s :: s in rest ==> s in steps
    requires WalkOk(steps, w, [])
    ensures var r := VisitAll(steps, rest, w);
            WalkOk(steps, r, []) && w.order <= r.order && Nums(rest) <= r.visited
  {
    if rest != [] {
      VisitKeeps(steps, rest[0], w, []);
      VisitAllKeeps(steps, rest[1..], Visit(steps, rest[0], w));
      assert rest == [rest[0]] + rest[1..];
    }
  }

  // ---------------------------------------------------------------- the ordering theorems

  /** For every plan, cyclic or not: one step per distinct number, all taken from the plan, and every dependency edge
      honoured that is not on a cycle of the steps placed. */
  lemma OrderedStepsSound(steps: seq<PlanStep>)
    ensures var order := OrderedSteps(steps);
            && DistinctNums(order) && Nums(order) == Nums(steps) && Among(order, steps)
            && EdgesHonoured(steps, order, order)
  {
    var w := Walk({}, []);
    assert Nums(w.order) == {} && Open(w) == {};
    VisitAllKeeps(steps, steps, w);
    var r := VisitAll(steps, steps, w);
    assert InUse(r, []) == r.order;
    assert r.visited == Nums(r.order) by {
      assert Nums([]) == {};
      assert forall n :: n in r.visited ==> n !in Open(r);
    }
  }

  /** A plan whose placed steps are acyclic comes out topologically sorted; so does an acyclic plan. */
  lemma AcyclicPlanSorted(steps: seq<PlanStep>)
    requires (forall a, b :: Edge(steps, a, b) ==> !Reaches(steps, b, a))
             || (var order := OrderedSteps(steps); forall a, b :: Edge(order, a, b) ==> !Reaches(order, b, a))
    ensures var order := OrderedSteps(steps);
            forall i, d :: 0 <= i < |order| && d in order[i].dependsOn && d in Nums(steps) ==> Before(order, i, d)
  {
    OrderedStepsSound(steps);
    var order := OrderedSteps(steps);
    forall i, d | 0 <= i < |order| && d in order[i].dependsOn && d in Nums(steps)
      ensures Before(order, i, d)
    {
      var n := order[i].num;
      assert Edge(order, n, d);
      EdgeAmongMore(order, steps, n, d);
      hide Edge, Reaches, Before, Among;
      if Reaches(order, d, n) {
        ReachesAmongMore(order, steps, d, n);
      }
    }
  }

  /** With unique numbers the order is a permutation of the plan. */
  lemma UniqueNumbersPermuted(steps: seq<PlanStep>)
    requires DistinctNums(steps)
    ensures multiset(OrderedSteps(steps)) == multiset(steps)
  {
    OrderedStepsSound(steps);
    var order := OrderedSteps(steps);
    forall s: PlanStep
      ensures multiset(order)[s] == multiset(steps)[s]
    {
      DistinctOnce(order, s);
      DistinctOnce(steps, s);
      if s in steps {
        assert s.num in Nums(order);
        var t :| t in order && t.num == s.num;
        SameNumSameStep(steps, s, t);
      }
    }
  }

  lemma SameNumSameStep(steps: seq<PlanStep>, s: PlanStep, t: PlanStep)
    requires DistinctNums(steps) && s in steps && t in steps && s.num == t.num
    ensures s == t
  {
  }

  lemma {:induction false} DistinctOnce(order: seq<PlanStep>, s: PlanStep)
    requires DistinctNums(order)
    ensures multiset(order)[s] == if s in order then 1 else 0
  {
    if order != [] {
      var rest := order[..|order| - 1];
      assert order == rest + [order[|order| - 1]];
      DistinctOnce(rest, s);
    }
  }

  /** Every dependency of step k in the plan is step k itself or an earlier one. */
  ghost predicate DepsBefore(steps: seq<PlanStep>, k: nat)
    requires k < |steps|
  {
    forall d :: d in steps[k].dependsOn && d in Nums(steps) ==> Before(steps, k + 1, d)
  }

  /** Numbers are unique, and every dependency the plan contains is at or before its step. */
  ghost predicate InDependencyOrder(steps: seq<PlanStep>) {
    DistinctNums(steps) && forall k :: 0 <= k < |steps| ==> DepsBefore(steps, k)
  }

  /** The plan is left in input order exactly when it already is in dependency order.  A cyclic plan
      keeps its input order only if its only cycles are steps that depend on themselves. */
  lemma InputOrderKeptIff(steps: seq<PlanStep>)
    ensures OrderedSteps(steps) == steps <==> InDependencyOrder(steps)
  {
    OrderedStepsSound(steps);
    if DistinctNums(steps) {
      InputOrderFrom(steps, 0);
      assert steps[0..] == steps && steps[..0] == [];
      assert Nums(steps[..0]) == {};
    }
  }

  /** The walk just before top-level step i, when nothing before it has been moved. */
  ghost function Unmoved(steps: seq<PlanStep>, i: nat): Walk
    requires i <= |steps|
  {
    Walk(Nums(steps[..i]), steps[..i])
  }

  lemma NumsPrefix(steps: seq<PlanStep>, i: nat)
    requires i <= |steps|
    ensures forall d :: d in Nums(steps[..i]) <==> Before(steps, i, d)
  {
    forall d | Before(steps, i, d) ensures d in Nums(steps[..i]) {
      var j :| 0 <= j < i && steps[j].num == d;
      assert steps[..i][j] == steps[j];
    }
    forall d | d in Nums(steps[..i]) ensures Before(steps, i, d) {
      var t :| t in steps[..i] && t.num == d;
      var j :| 0 <= j < i && steps[..i][j] == t;
      assert steps[j].num == d;
    }
  }

  lemma PrefixAmong(steps: seq<PlanStep>, i: nat)
    requires i <= |steps|
    ensures Among(steps[..i], steps) && Nums(steps[..i]) <= Nums(steps)
  {
    forall s | s in steps[..i] ensures s in steps {
      var j :| 0 <= j < i && steps[..i][j] == s;
      assert steps[j] == s;
    }
  }

  lemma UnmovedOk(steps: seq<PlanStep>, i: nat)
    requires DistinctNums(steps) && i <= |steps|
    requires forall k :: 0 <= k < i ==> DepsBefore(steps, k)
    ensures WalkOk(steps, Unmoved(steps, i), [])
  {
    var order := steps[..i];
    PrefixAmong(steps, i);
    assert order + [] == order && Nums([]) == {};
    forall k, d | 0 <= k < |order| && d in order[k].dependsOn && d in Nums(steps)
      ensures Before(order, k, d) || Reaches(order, d, order[k].num)
    {
      hide Reaches, Among, Nums;
      assert order[k] == steps[k] && DepsBefore(steps, k);
      var j :| 0 <= j < k + 1 && steps[j].num == d;
      if j == k {
        ReachesItself(order, d);
      } else {
        assert order[j] == steps[j];
      }
    }
  }

  lemma PrefixGrows(steps: seq<PlanStep>, i: nat)
    requires i < |steps|
    ensures steps[..i + 1] == steps[..i] + [steps[i]]
    ensures Nums(steps[..i + 1]) == Nums(steps[..i]) + {steps[i].num}
    ensures DistinctNums(steps) ==> steps[i].num !in Nums(steps[..i])
    ensures DepsBefore(steps, i) ==>
              forall d :: d in steps[i].dependsOn && d in Nums(steps) ==> d in Nums(steps[..i + 1])
  {
    assert steps[..i + 1] == steps[..i] + [steps[i]];
    NumsAppend(steps[..i], steps[i]);
    NumsPrefix(steps, i);
    NumsPrefix(steps, i + 1);
  }

  /** A step with all its dependencies before it is placed where it is. */
  lemma VisitUnmoved(steps: seq<PlanStep>, i: nat)
    requires DistinctNums(steps) && i < |steps| && DepsBefore(steps, i)
    ensures Visit(steps, steps[i], Unmoved(steps, i)) == Unmoved(steps, i + 1)
  {
    hide Nums, DistinctNums, DepsBefore, VisitDeps;
    var s, w := steps[i], Unmoved(steps, i);
    PrefixGrows(steps, i);
    VisitDepsIdle(steps, s.dependsOn, w.(visited := w.visited + {s.num}));
  }

  lemma {:induction false} InputOrderFrom(steps: seq<PlanStep>, i: nat)
    requires DistinctNums(steps) && i <= |steps|
    requires forall k :: 0 <= k < i ==> DepsBefore(steps, k)
    ensures VisitAll(steps, steps[i..], Unmoved(steps, i)).order == steps
            <==> forall k :: 0 <= k < |steps| ==> DepsBefore(steps, k)
    decreases |steps| - i
  {
    if i == |steps| {
      assert steps[..i] == steps;
    } else {
      assert steps[i..][0] == steps[i] && steps[i..][1..] == steps[i + 1..];
      if DepsBefore(steps, i) {
        VisitUnmoved(steps, i);
        hide DepsBefore, Visit, Unmoved, DistinctNums;
        InputOrderFrom(steps, i + 1);
      } else {
        UnmovedOk(steps, i);
        var d :| d in steps[i].dependsOn && d in Nums(steps) && !Before(steps, i + 1, d);
        hide Visit, VisitAll, Unmoved, DistinctNums;
        EarlyDependencyMoves(steps, i, d);
      }
    }
  }

  /** Dependencies that are all visited leave the walk as it is. */
  lemma {:induction false} VisitDepsIdle(steps: seq<PlanStep>, deps: seq<int>, w: Walk)
    requires forall d :: d in deps && d in Nums(steps) ==> d in w.visited
    ensures VisitDeps(steps, deps, w) == w
  {
    if deps != [] {
      VisitDepsIdle(steps, deps[1..], w);
    }
  }

  /** A dependency further down the plan takes its step's place. */
  lemma EarlyDependencyMoves(steps: seq<PlanStep>, i: nat, d: int)
    requires DistinctNums(steps) && i < |steps| && WalkOk(steps, Unmoved(steps, i), [])
    requires d in steps[i].dependsOn && d in Nums(steps) && !Before(steps, i + 1, d)
    ensures VisitAll(steps, steps[i..], Unmoved(steps, i)).order != steps
  {
    var s, w := steps[i], Unmoved(steps, i);
    PrefixGrows(steps, i);
    NumsPrefix(steps, i);
    assert s.num !in w.visited && d != s.num && d !in Nums(w.order);
    assert Nums([]) == {};
    EnterKeeps(steps, s, w, []);
    assert [] + [s] == [s];
    var entered := w.(visited := w.visited + {s.num});
    VisitDepsKeeps(steps, s.dependsOn, entered, [s]);
    var inner := VisitDeps(steps, s.dependsOn, entered);
    SomeoneBefore(steps, inner, s, d, i);
    var visited := Visit(steps, s, w);
    assert visited.order[i] == inner.order[i];
    VisitKeeps(steps, s, w, []);
    VisitAllKeeps(steps, steps[i + 1..], visited);
    hide WalkOk, Visit, VisitDeps, Nums, DistinctNums, Before, Unmoved;
    assert steps[i..][0] == s && steps[i..][1..] == steps[i + 1..];
  }

  /** With a dependency placed since, the place of the step is taken. */
  lemma SomeoneBefore(steps: seq<PlanStep>, w: Walk, s: PlanStep, d: int, i: nat)
    requires WalkOk(steps, w, [s]) && i <= |steps| && steps[..i] <= w.order
    requires d in w.visited && d != s.num && d !in Nums(steps[..i])
    ensures i < |w.order| && w.order[i].num != s.num
  {
    assert s in [s] && s.num in Open(w) && d !in Open(w);
    assert d in Nums(w.order) && w.order != steps[..i];
    assert w.order[..i] == steps[..i];
    assert w.order[i] in w.order && w.order[i].num in Nums(w.order);
  }

  /** A two-step cycle is not left in input order, although its documentation says it is. */
  lemma CyclicPlanReordered()
    ensures var a, b := PlanStep(1, "researcher", "g", "document", [2]), PlanStep(2, "writer", "g", "document", [1]);
            OrderedSteps([a, b]) == [b, a]
  {
    var a, b := PlanStep(1, "researcher", "g", "document", [2]), PlanStep(2, "writer", "g", "document", [1]);
    var plan := [a, b];
    assert a in plan && b in plan;
    assert 1 in Nums(plan) && 2 in Nums(plan);
    assert ByNum(plan, 2) == b;
    assert plan[..1] == [a];
    assert ByNum(plan, 1) == a;
    var w1 := Walk({1}, []);
    var w2 := Walk({1} + {2}, []);
    assert [1][1..] == [] && [2][1..] == [];
    VisitDepsIdle(plan, [1], w2);
    assert Visit(plan, b, w1) == Walk({1, 2}, [b]);
    VisitDepsIdle(plan, [], Walk({1, 2}, [b]));
    assert VisitDeps(plan, [2], w1) == Walk({1, 2}, [b]);
    assert {} + {1} == {1};
    assert Visit(plan, a, Walk({}, [])) == Walk({1, 2}, [b, a]);
    assert plan[1..] == [b] && [b][1..] == [];
    assert Visit(plan, b, Walk({1, 2}, [b, a])) == Walk({1, 2}, [b, a]);
    assert VisitAll(plan, [b], Walk({1, 2}, [b, a])) == VisitAll(plan, [], Walk({1, 2}, [b, a]));
  }

  // ---------------------------------------------------------------- the walk as the program runs it

  lemma NoNums(steps: seq<PlanStep>)
    ensures Nums(steps[..0]) == {}
  {
  }

  lemma ByNumNext(steps: seq<PlanStep>, i: nat)
    requires i < |steps|
    ensures Nums(steps[..i + 1]) == Nums(steps[..i]) + {steps[i].num}
    ensures forall n :: n in Nums(steps[..i + 1]) ==>
              ByNum(steps[..i + 1], n) == if n == steps[i].num then steps[i] else ByNum(steps[..i], n)
  {
    assert steps[..i + 1] == steps[..i] + [steps[i]];
    NumsAppend(steps[..i], steps[i]);
    assert steps[..i + 1][..i] == steps[..i];
  }

  class PlanOrder {
    const steps: seq<PlanStep>
    var byNum: map<int, PlanStep>
    var visited: set<int>
    var order: seq<PlanStep>

    ghost predicate Valid()
      reads this
    {
      byNum.Keys == Nums(steps) && forall n :: n in byNum ==> byNum[n] == ByNum(steps, n)
    }

    function View(): Walk
      reads this
    {
      Walk(visited, order)
    }

    constructor (steps: seq<PlanStep>)
      ensures this.steps == steps && Valid() && View() == Walk({}, [])
    {
      this.steps := steps;
      byNum, visited, order := map[], {}, [];
      new;
      hide Nums, ByNum;
      NoNums(steps);
      for i := 0 to |steps|
        invariant this.steps == steps && View() == Walk({}, [])
        invariant byNum.Keys == Nums(steps[..i]) && forall n :: n in byNum ==> byNum[n] == ByNum(steps[..i], n)
      {
        ByNumNext(steps, i);
        byNum := byNum[steps[i].num := steps[i]];
      }
      assert steps[..|steps|] == steps;
    }

    method VisitStep(s: PlanStep)
      requires Valid() && s in steps
      modifies this
      ensures Valid() && View() == Visit(steps, s, old(View()))
      decreases Nums(steps) - visited
    {
      if s.num in visited {
        return;
      }
      assert s.num in Nums(steps);
      visited := visited + {s.num};
      ghost var entered := View();
      var deps := s.dependsOn;
      for i := 0 to |deps|
        invariant Valid() && entered.visited <= visited
        invariant VisitDeps(steps, deps[i..], View()) == VisitDeps(steps, deps, entered)
      {
        assert deps[i..][0] == deps[i] && deps[i..][1..] == deps[i + 1..];
        if deps[i] in byNum {
          VisitStep(byNum[deps[i]]);
        }
      }
      order := order + [s];
    }

    /** The plan in dependency order (see OrderedStepsSound and InputOrderKeptIff). */
    method Ordered() returns (result: seq<PlanStep>)
      requires Valid() && View() == Walk({}, [])
      modifies this
      ensures result == OrderedSteps(steps)
    {
      for i := 0 to |steps|
        invariant Valid()
        invariant VisitAll(steps, steps[i..], View()) == VisitAll(steps, steps, Walk({}, []))
      {
        assert steps[i..][0] == steps[i] && steps[i..][1..] == steps[i + 1..];
        VisitStep(steps[i]);
      }
      result := order;
    }
  }
}
