/** The depth-first visit is exact: it succeeds just when it should, and in a topological order. */
module RuleCompileProof {
  import opened RuleModel
  import opened Sequences
  import opened SortedStrings
  import opened RuleCompileSpec

  ghost predicate Apart(a: seq<string>, b: seq<string>) {
    forall n <- a :: n !in b
  }

  /** What a visit that started from `done` under `trail` leaves behind. */
  ghost predicate VisitOk(x: Expr, sets: RuleSets, done: seq<string>, trail: seq<string>, v: Visit) {
    && done <= v.done
    && Ordered(x, sets, v.done)
    && Apart(trail, v.done)
    && (v.Aborted? ==> Genuine(x, sets, v.error))
  }

  lemma OrderedExtend(x: Expr, sets: RuleSets, done: seq<string>, n: string)
    requires Ordered(x, sets, done) && n !in done && n in sets
    requires CompileRules(x, sets[n].rules).Some? && forall d <- sets[n].dependsOn :: d in done
    ensures Ordered(x, sets, done + [n])
  {
    var all := done + [n];
    forall i | 0 <= i < |all| ensures all[i] in sets && CompileRules(x, sets[all[i]].rules).Some?
                                  && forall d <- sets[all[i]].dependsOn :: d in all[..i] {
      assert all[..i] == done[..i];
    }
  }

  lemma {:induction false} VisitSetOk(x: Expr, sets: RuleSets, done: seq<string>, trail: seq<string>, name: string)
    requires WellNamed(sets) && name !in trail && name !in done
    requires Ordered(x, sets, done) && Apart(trail, done)
    requires Chain(sets, trail + [name]) && (trail == [] ==> name in sets)
    ensures var v := VisitSet(x, sets, done, trail, name);
            VisitOk(x, sets, done, trail, v) && (v.Visited? ==> name in v.done)
    decreases sets.Keys - Elements(trail), 0
  {
    if name !in sets {
      var p := trail + [name];
      assert Edge(sets, p[|trail| - 1], p[|trail|]);
      forall i | 0 <= i < |trail| - 1 ensures Edge(sets, trail[i], trail[i + 1]) {
        assert Edge(sets, p[i], p[i + 1]);
      }
    } else {
      var extended := trail + [name];
      assert name in sets.Keys - Elements(trail) && Elements(extended) == Elements(trail) + {name};
      VisitDepsOk(x, sets, done, extended, sets[name].dependsOn);
      var v := VisitDeps(x, sets, done, extended, sets[name].dependsOn);
      assert name in extended;
      assert forall n <- trail :: n in extended;
      if v.Visited? {
        RulesCompileIff(x, sets[name].rules);
        if CompileRules(x, sets[name].rules).Some? {
          OrderedExtend(x, sets, v.done, name);
        }
      }
    }
  }

  lemma {:induction false} VisitDepsOk(x: Expr, sets: RuleSets, done: seq<string>, trail: seq<string>,
                                       deps: seq<string>)
    requires WellNamed(sets)
    requires Ordered(x, sets, done) && Apart(trail, done)
    requires Chain(sets, trail) && trail != []
    requires trail[|trail| - 1] in sets && forall d <- deps :: d in sets[trail[|trail| - 1]].dependsOn
    ensures var v := VisitDeps(x, sets, done, trail, deps);
            VisitOk(x, sets, done, trail, v) && (v.Visited? ==> forall d <- deps :: d in v.done)
    decreases sets.Keys - Elements(trail), |deps|
  {
    if deps != [] {
      assert deps[0] in deps && forall d <- deps[1..] :: d in deps;
      assert Edge(sets, trail[|trail| - 1], deps[0]);
      if deps[0] in trail {
        var i :| 0 <= i < |trail| && trail[i] == deps[0];
        var p := trail[i..] + [deps[0]];
        forall j | 0 <= j < |p| - 1 ensures Edge(sets, p[j], p[j + 1]) {
          assert p[j] == trail[i + j];
          if j < |p| - 2 { assert p[j + 1] == trail[i + j + 1]; }
        }
        assert Cycle(sets, p);
      } else if deps[0] in done {
        VisitDepsOk(x, sets, done, trail, deps[1..]);
      } else {
        ChainPush(sets, trail, deps[0]);
        VisitSetOk(x, sets, done, trail, deps[0]);
        var v := VisitSet(x, sets, done, trail, deps[0]);
        if v.Visited? {
          VisitDepsOk(x, sets, v.done, trail, deps[1..]);
        }
      }
    }
  }

  lemma ChainPush(sets: RuleSets, p: seq<string>, n: string)
    requires Chain(sets, p) && p != [] && Edge(sets, p[|p| - 1], n)
    ensures Chain(sets, p + [n])
  {
    var q := p + [n];
    forall i | 0 <= i < |q| - 1 ensures Edge(sets, q[i], q[i + 1]) {
      if i < |p| - 1 { assert q[i + 1] == p[i + 1]; }
    }
  }

  lemma {:induction false} VisitAllOk(x: Expr, sets: RuleSets, done: seq<string>, names: seq<string>)
    requires WellNamed(sets) && Ordered(x, sets, done) && forall n <- names :: n in sets
    ensures var v := VisitAll(x, sets, done, names);
            VisitOk(x, sets, done, [], v) && (v.Visited? ==> forall n <- names :: n in v.done)
    decreases |names|
  {
    if names != [] {
      if names[0] in done {
        VisitAllOk(x, sets, done, names[1..]);
      } else {
        VisitSetOk(x, sets, done, [], names[0]);
        var v := VisitSet(x, sets, done, [], names[0]);
        if v.Visited? {
          VisitAllOk(x, sets, v.done, names[1..]);
        }
      }
    }
  }

  // ---- Positions in an order ----

  function IndexOf(s: seq<string>, n: string): (i: nat)
    requires n in s
    ensures i < |s| && s[i] == n
  {
    if s[0] == n then 0 else 1 + IndexOf(s[1..], n)
  }

  /** In an ordered list, each name of a dependency chain stands strictly after the chain's later names. */
  lemma {:induction false} ChainDescends(x: Expr, sets: RuleSets, done: seq<string>, p: seq<string>)
    requires Ordered(x, sets, done) && Chain(sets, p) && |p| >= 2 && p[0] in done
    ensures p[|p| - 1] in done && IndexOf(done, p[|p| - 1]) < IndexOf(done, p[0])
    decreases |p|
  {
    assert Edge(sets, p[0], p[1]);
    var i := IndexOf(done, p[0]);
    assert p[1] in done[..i];
    var j :| 0 <= j < i && done[j] == p[1];
    assert IndexOf(done, p[1]) == j;
    if |p| > 2 {
      assert Chain(sets, p[1..]) by {
        forall k | 0 <= k < |p[1..]| - 1 ensures Edge(sets, p[1..][k], p[1..][k + 1]) {
          assert Edge(sets, p[k + 1], p[k + 2]);
        }
      }
      ChainDescends(x, sets, done, p[1..]);
    }
  }

  lemma CompleteOrderIsAcyclic(x: Expr, sets: RuleSets, done: seq<string>)
    requires Ordered(x, sets, done) && forall n <- sets :: n in done
    ensures Acyclic(sets)
  {
    forall p ensures !Cycle(sets, p) {
      if Cycle(sets, p) {
        assert Edge(sets, p[0], p[1]);
        ChainDescends(x, sets, done, p);
      }
    }
  }

  // ---- Main results ----

  /** Each error is genuine, so compilation can only fail for a fault that is really there. */
  lemma CompileErrorIsGenuine(x: Expr, sets: RuleSets)
    requires WellNamed(sets)
    ensures var v := CompileOrder(x, sets); v.Aborted? ==> Genuine(x, sets, v.error)
  {
    CompileOrderOk(x, sets);
  }

  lemma CompileOrderOk(x: Expr, sets: RuleSets)
    requires WellNamed(sets)
    ensures var v := CompileOrder(x, sets);
            VisitOk(x, sets, [], [], v) && (v.Visited? ==> Elements(v.done) == sets.Keys)
  {
    var names := Sort(SomeOrder(sets.Keys));
    SortSorts(SomeOrder(sets.Keys));
    assert forall n <- names :: n in Elements(names);
    VisitAllOk(x, sets, [], names);
    var v := CompileOrder(x, sets);
    if v.Visited? {
      forall n ensures n in Elements(v.done) <==> n in sets {
        if n in sets { assert n in Elements(names); }
        if n in v.done { assert v.done[IndexOf(v.done, n)] in sets; }
      }
    }
  }

  /** Compilation succeeds exactly when every dependency is loaded, none is circular and each expression compiles. */
  lemma CompileSucceedsIff(x: Expr, sets: RuleSets)
    requires WellNamed(sets)
    ensures CompileOrder(x, sets).Visited? <==>
            AllDependenciesLoaded(sets) && Acyclic(sets) && AllExpressionsCompile(x, sets)
  {
    CompileOrderOk(x, sets);
    var v := CompileOrder(x, sets);
    if v.Visited? {
      assert forall n <- sets :: n in Elements(v.done);
      CompleteOrderIsAcyclic(x, sets, v.done);
      forall n <- sets ensures (forall d <- sets[n].dependsOn :: d in sets)
                            && (forall t <- AllTexts(sets[n].rules) :: x.compile(t).Some?) {
        var i := IndexOf(v.done, n);
        forall d <- sets[n].dependsOn ensures d in sets {
          assert d in v.done[..i];
          assert d in Elements(v.done);
        }
        RulesCompileIff(x, sets[n].rules);
      }
    } else {
      assert Genuine(x, sets, v.error);
    }
  }

  /** On success every set appears once, after everything it transitively depends on. */
  lemma CompiledAfterDependencies(x: Expr, sets: RuleSets, a: string, b: string)
    requires WellNamed(sets) && CompileOrder(x, sets).Visited?
    requires a in sets && TransitivelyDependsOn(sets, a, b)
    ensures var order := CompileOrder(x, sets).done;
            Distinct(order) && Elements(order) == sets.Keys &&
            a in order && b in order && IndexOf(order, b) < IndexOf(order, a)
  {
    CompileOrderOk(x, sets);
    var order := CompileOrder(x, sets).done;
    assert a in Elements(order);
    var p :| |p| >= 2 && Chain(sets, p) && p[0] == a && p[|p| - 1] == b;
    ChainDescends(x, sets, order, p);
  }
}
