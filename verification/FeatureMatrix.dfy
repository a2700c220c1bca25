/**
 The derived feature matrix (scripts/ci_feature_matrix.py): the closure of a feature
 set, the test legs with their complement leg, the riders, and the coverage step of
 the gate.
 */
module FeatureMatrix {
  type Feature = string

  /** `[features]` in declaration order, and what each entry lists; an entry may list what is no feature. */
  datatype Manifest = Manifest(declared: seq<Feature>, enables: map<Feature, seq<Feature>>)

  ghost predicate WellFormed(f: Manifest) {
    forall x :: x in f.declared <==> x in f.enables
  }

  /** The sibling features `x` turns on. */
  function Siblings(f: Manifest, x: Feature): set<Feature> {
    if x in f.enables then set y <- f.enables[x] | y in f.enables else {}
  }

  ghost predicate Closed(f: Manifest, s: set<Feature>) {
    forall x <- s :: Siblings(f, x) <= s
  }

  /** What enabling `seeds` turns on: what every closed set around them holds. */
  ghost predicate Enabled(f: Manifest, seeds: seq<Feature>, x: Feature) {
    forall s: set<Feature> :: (forall y <- seeds :: y in s) && Closed(f, s) ==> x in s
  }

  // ---------------------------------------------------------------- the closure

  /** Everything seen or waiting is wanted, and what is seen has its siblings seen or waiting. */
  ghost predicate Pending(f: Manifest, seeds: seq<Feature>, seen: set<Feature>, stack: seq<Feature>) {
    && (forall y <- seeds :: y in seen || y in stack)
    && (forall x <- seen :: Siblings(f, x) <= seen + set y <- stack)
    && (forall x <- seen :: Enabled(f, seeds, x))
    && (forall x <- stack :: Enabled(f, seeds, x))
  }

  lemma SiblingsEnabled(f: Manifest, seeds: seq<Feature>, x: Feature, y: Feature)
    requires Enabled(f, seeds, x) && y in Siblings(f, x)
    ensures Enabled(f, seeds, y)
  {
  }

  lemma PopSeen(f: Manifest, seeds: seq<Feature>, seen: set<Feature>, stack: seq<Feature>)
    requires stack != [] && stack[|stack| - 1] in seen && Pending(f, seeds, seen, stack)
    ensures Pending(f, seeds, seen, stack[..|stack| - 1])
  {
  }

  lemma PopFresh(f: Manifest, seeds: seq<Feature>, seen: set<Feature>, stack: seq<Feature>, more: seq<Feature>)
    requires stack != [] && Pending(f, seeds, seen, stack)
    requires forall y :: y in more <==> y in Siblings(f, stack[|stack| - 1])
    ensures Pending(f, seeds, seen + {stack[|stack| - 1]}, stack[..|stack| - 1] + more)
  {
    var x, rest := stack[|stack| - 1], stack[..|stack| - 1];
    assert stack == rest + [x] && x in stack;
    assert forall y :: y in stack <==> y in rest || y == x;
    assert forall y :: y in rest + more <==> y in rest || y in more;
    forall y <- more ensures Enabled(f, seeds, y) { SiblingsEnabled(f, seeds, x, y); }
  }

  /** The siblings as a list, in the order the entry gives them. */
  method SiblingList(f: Manifest, x: Feature) returns (more: seq<Feature>)
    ensures forall y :: y in more <==> y in Siblings(f, x)
  {
    more := [];
    if x in f.enables {
      var listed := f.enables[x];
      var i := 0;
      while i < |listed|
        invariant 0 <= i <= |listed|
        invariant forall y :: y in more <==> y in listed[..i] && y in f.enables
      {
        assert listed[..i + 1] == listed[..i] + [listed[i]];
        if listed[i] in f.enables {
          more := more + [listed[i]];
        }
        i := i + 1;
      }
      assert listed[..|listed|] == listed;
    }
  }

  /** The worklist: exactly what the seeds enable, on cyclic graphs too. */
  method Closure(f: Manifest, seeds: seq<Feature>) returns (seen: set<Feature>)
    ensures forall x :: x in seen <==> Enabled(f, seeds, x)
    ensures Closed(f, seen) && forall y <- seeds :: y in seen
  {
    ghost var universe := f.enables.Keys + set y <- seeds;
    seen := {};
    var stack := seeds;
    while stack != []
      invariant Pending(f, seeds, seen, stack)
      invariant seen <= universe && forall y <- stack :: y in universe
      decreases universe - seen, |stack|
    {
      var x := stack[|stack| - 1];
      assert x in stack;
      if x in seen {
        PopSeen(f, seeds, seen, stack);
        stack := stack[..|stack| - 1];
      } else {
        var more := SiblingList(f, x);
        PopFresh(f, seeds, seen, stack, more);
        assert universe - (seen + {x}) < universe - seen by { assert x in universe - seen; }
        seen := seen + {x};
        stack := stack[..|stack| - 1] + more;
      }
    }
    forall x ensures x in seen <==> Enabled(f, seeds, x) {
    }
  }

  // ---------------------------------------------------------------- legs and riders

  /** The plan's constants. A rider's host does not matter to what it tests. */
  datatype Plan = Plan(base: seq<Feature>, axes: seq<Feature>, notTested: set<Feature>, riders: map<string, seq<Feature>>)

  type Matrix = map<string, seq<Feature>>

  function RiderFeatures(p: Plan): set<Feature> {
    set n, x | n in p.riders && x in p.riders[n] :: x
  }

  /** Features the plan already speaks for. */
  predicate Spoken(p: Plan, x: Feature) {
    x in p.base || x in p.axes || x in p.notTested || x in RiderFeatures(p)
  }

  function Unspoken(p: Plan, declared: seq<Feature>): (rest: seq<Feature>)
    ensures forall x :: x in rest <==> x in declared && !Spoken(p, x)
  {
    if declared == [] then []
    else
      var rest := Unspoken(p, declared[..|declared| - 1]);
      var x := declared[|declared| - 1];
      assert declared == declared[..|declared| - 1] + [x];
      if Spoken(p, x) then rest else rest + [x]
  }

  /** Later entries replace earlier ones of the same name: the axes `core`, the complement an axis, a rider either. */
  function Legs(p: Plan, declared: seq<Feature>): Matrix {
    (map["core" := p.base] + map a | a in p.axes :: p.base + [a])["rest" := p.base + Unspoken(p, declared)]
  }

  /** Every leg runs the base: alone, with one axis, or with everything the plan does not speak for. */
  lemma LegsHold(p: Plan, declared: seq<Feature>)
    ensures forall n :: n in Legs(p, declared) <==> n == "core" || n == "rest" || n in p.axes
    ensures forall n, x :: n in Legs(p, declared) ==>
              (x in Legs(p, declared)[n] <==>
                 || x in p.base
                 || (n == "rest" && x in declared && x !in p.axes && x !in p.notTested && forall r <- p.riders :: x !in p.riders[r])
                 || (n != "rest" && n in p.axes && x == n))
  {
  }

  function Invocations(p: Plan, declared: seq<Feature>): Matrix {
    Legs(p, declared) + p.riders
  }

  method BuildLegs(p: Plan, declared: seq<Feature>) returns (plan: Matrix)
    ensures plan == Legs(p, declared)
  {
    plan := map["core" := p.base];
    var i := 0;
    while i < |p.axes|
      invariant 0 <= i <= |p.axes|
      invariant plan == map["core" := p.base] + map a | a in p.axes[..i] :: p.base + [a]
    {
      assert p.axes[..i + 1] == p.axes[..i] + [p.axes[i]];
      assert forall a :: a in p.axes[..i + 1] <==> a in p.axes[..i] || a == p.axes[i];
      plan := plan[p.axes[i] := p.base + [p.axes[i]]];
      i := i + 1;
    }
    assert p.axes[..|p.axes|] == p.axes;
    var rest: seq<Feature> := [];
    i := 0;
    while i < |declared|
      invariant 0 <= i <= |declared|
      invariant rest == Unspoken(p, declared[..i])
    {
      assert declared[..i + 1][..i] == declared[..i];
      if !Spoken(p, declared[i]) {
        rest := rest + [declared[i]];
      }
      i := i + 1;
    }
    assert declared[..|declared|] == declared;
    plan := plan["rest" := p.base + rest];
  }

  // ---------------------------------------------------------------- the coverage step

  ghost predicate TestedBy(f: Manifest, plan: Matrix, x: Feature) {
    exists n <- plan :: Enabled(f, plan[n], x)
  }

  ghost predicate Tested(f: Manifest, p: Plan, x: Feature) {
    TestedBy(f, Invocations(p, f.declared), x)
  }

  /** The union of the closures of every invocation. */
  method TestedSet(f: Manifest, plan: Matrix) returns (tested: set<Feature>)
    ensures forall x :: x in tested <==> TestedBy(f, plan, x)
  {
    tested := {};
    var todo := plan.Keys;
    ghost var done: Matrix := map[];
    while todo != {}
      invariant todo <= plan.Keys && done.Keys == plan.Keys - todo && forall n <- done :: done[n] == plan[n]
      invariant forall x :: x in tested <==> TestedBy(f, done, x)
      decreases |todo|
    {
      var n :| n in todo;
      var on := Closure(f, plan[n]);
      TestedByOneMore(f, done, n, plan[n]);
      todo := todo - {n};
      done := done[n := plan[n]];
      tested := tested + on;
    }
    assert done == plan;
  }

  lemma TestedByOneMore(f: Manifest, done: Matrix, n: string, seeds: seq<Feature>)
    requires n !in done
    ensures forall x :: TestedBy(f, done[n := seeds], x) <==> TestedBy(f, done, x) || Enabled(f, seeds, x)
  {
    var more := done[n := seeds];
    forall x ensures TestedBy(f, more, x) <==> TestedBy(f, done, x) || Enabled(f, seeds, x) {
      if TestedBy(f, done, x) {
        var k :| k in done && Enabled(f, done[k], x);
        assert k in more && more[k] == done[k];
      }
      if Enabled(f, seeds, x) {
        assert n in more && more[n] == seeds;
      }
    }
  }

  /** Step 2 of the gate names exactly the declared features that nothing tests and nothing holds out. */
  method CoverageProblems(f: Manifest, p: Plan) returns (problems: seq<Feature>)
    ensures forall x :: x in problems <==> x in f.declared && !Tested(f, p, x) && x !in p.notTested
  {
    var legs := BuildLegs(p, f.declared);
    var tested := TestedSet(f, legs + p.riders);
    problems := [];
    var i := 0;
    while i < |f.declared|
      invariant 0 <= i <= |f.declared|
      invariant forall x :: x in problems <==> x in f.declared[..i] && x !in tested && x !in p.notTested
    {
      assert f.declared[..i + 1] == f.declared[..i] + [f.declared[i]];
      if f.declared[i] !in tested && f.declared[i] !in p.notTested {
        problems := problems + [f.declared[i]];
      }
      i := i + 1;
    }
    assert f.declared[..|f.declared|] == f.declared;
  }

  ghost predicate Covered(f: Manifest, p: Plan) {
    forall x <- f.declared :: Tested(f, p, x) || x in p.notTested
  }

  // ---------------------------------------------------------------- when the step can fire

  /** No rider replaces the complement leg, and no axis that only its leg tests has that leg replaced. */
  ghost predicate Sheltered(p: Plan) {
    && "rest" !in p.riders
    && forall a <- p.axes ::
         a in p.base || a in p.notTested || a in RiderFeatures(p) || (a !in p.riders && a != "rest")
  }

  /** A sheltered plan tests every feature of every manifest, or holds it out. */
  lemma ShelteredCovers(p: Plan, f: Manifest)
    requires Sheltered(p)
    ensures Covered(f, p)
  {
  }

  /** A name no invocation lists is not tested where nothing enables anything. */
  lemma UnlistedUntested(p: Plan, x: Feature)
    requires forall n <- Invocations(p, [x]) :: x !in Invocations(p, [x])[n]
    ensures !Tested(Manifest([x], map[x := []]), p, x)
  {
    var f := Manifest([x], map[x := []]);
    var plan := Invocations(p, [x]);
    forall n <- plan ensures !Enabled(f, plan[n], x) {
      var s := set y <- plan[n];
      assert Closed(f, s);
    }
  }

  lemma {:induction false} FreshName(names: set<Feature>) returns (x: Feature)
    ensures x !in names && forall y <- names :: |y| < |x|
    decreases |names|
  {
    if names == {} {
      x := "x";
    } else {
      var y :| y in names;
      var z := FreshName(names - {y});
      x := z + y + "x";
      forall w <- names ensures |w| < |x| {
        assert w == y || w in names - {y};
      }
    }
  }

  /** What lists a feature, invocation by invocation. */
  lemma ListedWhere(p: Plan, declared: seq<Feature>, x: Feature, n: string)
    requires n in Invocations(p, declared) && x in Invocations(p, declared)[n]
    ensures x in RiderFeatures(p) || x in p.base || (n == "rest" && n !in p.riders && !Spoken(p, x)) ||
            (n == x && x in p.axes && x !in p.riders && x != "rest")
  {
  }

  lemma UnshelteredMisses(p: Plan) returns (f: Manifest)
    requires !Sheltered(p)
    ensures WellFormed(f) && !Covered(f, p)
  {
    var x;
    if "rest" in p.riders {
      x := FreshName((set y <- p.base) + (set y <- p.axes) + p.notTested + RiderFeatures(p));
      assert !Spoken(p, x);
    } else {
      x :| x in p.axes && x !in p.base && x !in p.notTested && x !in RiderFeatures(p) && (x in p.riders || x == "rest");
    }
    f := Manifest([x], map[x := []]);
    forall n <- Invocations(p, [x]) ensures x !in Invocations(p, [x])[n] {
      if x in Invocations(p, [x])[n] {
        ListedWhere(p, [x], x, n);
        assert false;
      }
    }
    UnlistedUntested(p, x);
    assert x in f.declared;
  }

  /** The coverage step cannot fire for any manifest exactly when the plan is sheltered. */
  lemma CoverageIff(p: Plan)
    ensures (forall f :: WellFormed(f) ==> Covered(f, p)) <==> Sheltered(p)
  {
    if Sheltered(p) {
      forall f | WellFormed(f) ensures Covered(f, p) { ShelteredCovers(p, f); }
    } else {
      var f := UnshelteredMisses(p);
    }
  }

  /** The repository's own plan. */
  const PLAN: Plan := Plan(
    ["postgres", "server", "pyo3", "sqlite"],
    ["cirisaudit", "secrets", "cirisnode", "cirisgraph", "telemetry"],
    {"default", "extension-module", "test-panic", "scrub-ner", "scrub-ort", "default-pipeline-ml", "_pyffi"},
    map["test-anchor" := ["sqlite", "test-anchor"]])

  /** Whatever features the manifest declares, the repository's plan misses none. */
  lemma RepositoryPlanCovers(f: Manifest)
    ensures Covered(f, PLAN)
  {
    assert Sheltered(PLAN);
    ShelteredCovers(PLAN, f);
  }
}
