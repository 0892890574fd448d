/** tools/reachability.py: the two worklists that decide what is dead code, over the import and
    call graphs as given. Each finds exactly the least set closed under its edges. */
module Reachability {
  import opened Common

  ghost predicate Closed(next: string -> seq<string>, s: set<string>) {
    forall x, y :: x in s && y in next(x) ==> y in s
  }

  ghost predicate Least(next: string -> seq<string>, roots: set<string>, s: set<string>) {
    && roots <= s && Closed(next, s)
    && forall other :: roots <= other && Closed(next, other) ==> s <= other
  }

  ghost predicate Path(next: string -> seq<string>, p: seq<string>) {
    p != [] && forall i :: 0 <= i < |p| - 1 ==> p[i + 1] in next(p[i])
  }

  ghost predicate ReachedFrom(next: string -> seq<string>, roots: set<string>, x: string) {
    exists p :: Path(next, p) && p[0] in roots && p[|p| - 1] == x
  }

  lemma {:induction false} PathStaysInside(next: string -> seq<string>, s: set<string>, p: seq<string>)
    requires Closed(next, s) && Path(next, p) && p[0] in s
    ensures p[|p| - 1] in s
  {
    if |p| > 1 {
      PathStaysInside(next, s, p[..|p| - 1]);
    }
  }

  lemma OneMoreStep(next: string -> seq<string>, roots: set<string>, x: string, y: string)
    requires ReachedFrom(next, roots, x) && y in next(x)
    ensures ReachedFrom(next, roots, y)
  {
    var p :| Path(next, p) && p[0] in roots && p[|p| - 1] == x;
    var q := p + [y];
    assert Path(next, q) && q[0] in roots && q[|q| - 1] == y;
  }

  // A set is the least closed one exactly when it holds what some path of edges reaches: nothing
  // live is called dead, and nothing dead is called live.
  lemma LeastIffReached(next: string -> seq<string>, roots: set<string>, s: set<string>)
    ensures Least(next, roots, s) <==> forall x :: x in s <==> ReachedFrom(next, roots, x)
  {
    if Least(next, roots, s) {
      LeastHoldsTheReached(next, roots, s);
    }
    if forall x :: x in s <==> ReachedFrom(next, roots, x) {
      forall x | x in roots
        ensures x in s
      {
        assert Path(next, [x]) && [x][0] in roots && [x][|[x]| - 1] == x;
      }
      forall x, y | x in s && y in next(x)
        ensures y in s
      {
        OneMoreStep(next, roots, x, y);
      }
      forall other, x | roots <= other && Closed(next, other) && x in s
        ensures x in other
      {
        var p :| Path(next, p) && p[0] in roots && p[|p| - 1] == x;
        PathStaysInside(next, other, p);
      }
    }
  }

  lemma LeastHoldsTheReached(next: string -> seq<string>, roots: set<string>, s: set<string>)
    requires Least(next, roots, s)
    ensures forall x :: x in s <==> ReachedFrom(next, roots, x)
  {
    forall x | ReachedFrom(next, roots, x)
      ensures x in s
    {
      var p :| Path(next, p) && p[0] in roots && p[|p| - 1] == x;
      PathStaysInside(next, s, p);
    }
    var reached := set x | x in s && ReachedFrom(next, roots, x);
    forall x | x in roots
      ensures x in reached
    {
      assert Path(next, [x]) && [x][0] in roots && [x][|[x]| - 1] == x;
    }
    forall x, y | x in reached && y in next(x)
      ensures y in reached
    {
      OneMoreStep(next, roots, x, y);
    }
    assert Closed(next, reached);
  }

  // The loop both searches share: cycles and repeated names end because a name is only ever
  // expanded once, and there are finitely many.
  method Worklist(start: seq<string>, next: string -> seq<string>, ghost universe: set<string>) returns (seen: set<string>)
    requires ToSet(start) <= universe && Closed(next, universe)
    ensures Least(next, ToSet(start), seen)
  {
    seen := {};
    var queue := start;
    while queue != []
      invariant seen <= universe && forall x :: x in queue ==> x in universe
      invariant forall x :: x in start ==> x in seen || x in queue
      invariant forall x, y :: x in seen && y in next(x) ==> y in seen || y in queue
      invariant forall other, x :: ToSet(start) <= other && Closed(next, other) && (x in seen || x in queue) ==> x in other
      decreases universe - seen, |queue|
    {
      var name := queue[|queue| - 1];
      ghost var before := queue;
      queue := queue[..|queue| - 1];
      assert forall x :: x in before <==> x in queue || x == name;
      if name in seen { continue; }
      seen := seen + {name};
      queue := queue + next(name);
    }
  }

  // _parents: the packages a dotted name sits in, outermost first
  function ParentsUpTo(name: string, k: nat): seq<string>
    requires k <= |name|
  {
    if k == 0 then []
    else ParentsUpTo(name, k - 1) + if name[k - 1] == '.' then [name[..k - 1]] else []
  }

  function Known(names: seq<string>, modules: map<string, seq<string>>): seq<string> {
    if names == [] then []
    else (if names[0] in modules then [names[0]] else []) + Known(names[1..], modules)
  }

  lemma {:induction false} KnownAreModules(names: seq<string>, modules: map<string, seq<string>>)
    ensures forall n :: n in Known(names, modules) <==> n in names && n in modules
  {
    if names != [] {
      KnownAreModules(names[1..], modules);
      assert forall n :: n in names <==> n == names[0] || n in names[1..];
    }
  }

  // Importing a module runs it, what it imports and the packages it sits in.
  function Needs(modules: map<string, seq<string>>): string -> seq<string> {
    (name: string) =>
      if name in modules then modules[name] + Known(ParentsUpTo(name, |name|), modules) else []
  }

  // The packages of a dotted name are what stands before each of its dots.
  lemma {:induction false} ParentsAreBeforeDots(name: string, k: nat)
    requires k <= |name|
    ensures forall p :: p in ParentsUpTo(name, k) <==> exists i :: 0 <= i < k && name[i] == '.' && p == name[..i]
  {
    if k > 0 {
      ParentsAreBeforeDots(name, k - 1);
      var last := if name[k - 1] == '.' then [name[..k - 1]] else [];
      forall p | p in ParentsUpTo(name, k)
        ensures exists i :: 0 <= i < k && name[i] == '.' && p == name[..i]
      {
        if p in ParentsUpTo(name, k - 1) {
          var i :| 0 <= i < k - 1 && name[i] == '.' && p == name[..i];
        } else {
          assert p in last;
        }
      }
    }
  }

  // The edges out of a module: what it imports, and those of its packages that are modules.
  lemma NeedsAre(modules: map<string, seq<string>>, x: string, y: string)
    ensures y in Needs(modules)(x) <==>
              x in modules && (y in modules[x] || (y in modules && exists i :: 0 <= i < |x| && x[i] == '.' && y == x[..i]))
  {
    ParentsAreBeforeDots(x, |x|);
    KnownAreModules(ParentsUpTo(x, |x|), modules);
  }

  function Imported(modules: map<string, seq<string>>): set<string> {
    set m, n | m in modules && n in modules[m] :: n
  }

  // Graph.reachable_modules; its roots are first-party by the assertion it opens with
  method ReachableModules(modules: map<string, seq<string>>, roots: seq<string>) returns (seen: set<string>)
    requires forall r :: r in roots ==> r in modules
    ensures Least(Needs(modules), ToSet(roots), seen)
    ensures forall x :: x in seen <==> ReachedFrom(Needs(modules), ToSet(roots), x)
  {
    ghost var universe := modules.Keys + Imported(modules);
    forall x, y | x in universe && y in Needs(modules)(x)
      ensures y in universe
    {
      KnownAreModules(ParentsUpTo(x, |x|), modules);
    }
    seen := Worklist(roots, Needs(modules), universe);
    LeastIffReached(Needs(modules), ToSet(roots), seen);
  }

  // Graph.reachable_functions, over call sites already resolved to what they may mean: `bodies`
  // are a module's own, `calls` a function's.
  function BodyTargets(modules: seq<string>, bodies: map<string, seq<string>>): seq<string> {
    if modules == [] then []
    else (if modules[0] in bodies then bodies[modules[0]] else []) + BodyTargets(modules[1..], bodies)
  }

  function Calls(calls: map<string, seq<string>>): string -> seq<string> {
    (f: string) => if f in calls then calls[f] else []
  }

  lemma {:induction false} BodyTargetsAre(modules: seq<string>, bodies: map<string, seq<string>>)
    ensures forall f :: f in BodyTargets(modules, bodies) <==> exists m :: m in modules && m in bodies && f in bodies[m]
  {
    if modules != [] {
      BodyTargetsAre(modules[1..], bodies);
      assert forall m :: m in modules <==> m == modules[0] || m in modules[1..];
    }
  }

  lemma CallsAre(calls: map<string, seq<string>>, f: string, g: string)
    ensures g in Calls(calls)(f) <==> f in calls && g in calls[f]
  {
  }

  method ReachableFunctions(modules: seq<string>, bodies: map<string, seq<string>>, calls: map<string, seq<string>>)
    returns (seen: set<string>)
    ensures Least(Calls(calls), ToSet(BodyTargets(modules, bodies)), seen)
    ensures forall x :: x in seen <==> ReachedFrom(Calls(calls), ToSet(BodyTargets(modules, bodies)), x)
  {
    var queue := [];
    for i := 0 to |modules|
      invariant queue + BodyTargets(modules[i..], bodies) == BodyTargets(modules, bodies)
    {
      assert modules[i..][1..] == modules[i + 1..];
      if modules[i] in bodies {
        queue := queue + bodies[modules[i]];
      }
    }
    assert queue == BodyTargets(modules, bodies);
    ghost var universe := ToSet(queue) + Imported(calls);
    seen := Worklist(queue, Calls(calls), universe);
    LeastIffReached(Calls(calls), ToSet(queue), seen);
  }
}
