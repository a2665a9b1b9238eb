/** Compiling and executing rule sets does what their source text means. */
module RuleSourceProof {
  import opened Wrappers
  import opened RuleModel
  import opened Sequences
  import opened SortedStrings
  import opened RuleCompileSpec
  import opened RuleCompileProof
  import opened RuleExecuteSpec
  import opened RuleExecuteProof
  import opened RuleSource

  // ---- The order ----

  lemma {:induction false} VisitSetPlaces(x: Expr, sets: RuleSets, done: seq<string>, trail: seq<string>, name: string)
    requires WellNamed(sets) && name !in trail && name !in done && VisitSet(x, sets, done, trail, name).Visited?
    ensures VisitSet(x, sets, done, trail, name).done == Placed(sets, done, name, sets.Keys - Elements(trail))
    decreases sets.Keys - Elements(trail), 0
  {
    var extended := trail + [name];
    assert name in sets.Keys - Elements(trail) && Elements(extended) == Elements(trail) + {name};
    assert sets.Keys - Elements(trail) - {name} == sets.Keys - Elements(extended);
    VisitDepsPlaces(x, sets, done, extended, sets[name].dependsOn);
  }

  lemma {:induction false} VisitDepsPlaces(x: Expr, sets: RuleSets, done: seq<string>, trail: seq<string>,
                                           deps: seq<string>)
    requires WellNamed(sets) && VisitDeps(x, sets, done, trail, deps).Visited?
    ensures VisitDeps(x, sets, done, trail, deps).done == PlacedAll(sets, done, deps, sets.Keys - Elements(trail))
    decreases sets.Keys - Elements(trail), |deps|
  {
    if deps != [] {
      if deps[0] in done {
        VisitDepsPlaces(x, sets, done, trail, deps[1..]);
      } else {
        VisitSetPlaces(x, sets, done, trail, deps[0]);
        VisitDepsPlaces(x, sets, VisitSet(x, sets, done, trail, deps[0]).done, trail, deps[1..]);
      }
    }
  }

  lemma {:induction false} VisitAllPlaces(x: Expr, sets: RuleSets, done: seq<string>, names: seq<string>)
    requires WellNamed(sets) && VisitAll(x, sets, done, names).Visited?
    ensures VisitAll(x, sets, done, names).done == PlacedAll(sets, done, names, sets.Keys)
    decreases |names|
  {
    if names != [] {
      if names[0] in done {
        VisitAllPlaces(x, sets, done, names[1..]);
      } else {
        VisitSetPlaces(x, sets, done, [], names[0]);
        assert sets.Keys - Elements<string>([]) == sets.Keys;
        VisitAllPlaces(x, sets, VisitSet(x, sets, done, [], names[0]).done, names[1..]);
      }
    }
  }

  /** The order of a successful compilation is fixed by the rule sets alone: sorted names, dependencies first. */
  lemma OrderIsPlaced(x: Expr, sets: RuleSets, names: seq<string>)
    requires WellNamed(sets) && CompileOrder(x, sets).Visited? && SortedNames(sets, names)
    ensures CompileOrder(x, sets).done == PlacedAll(sets, [], names, sets.Keys)
  {
    SortSorts(SomeOrder(sets.Keys));
    AscendingUnique(names, Sort(SomeOrder(sets.Keys)));
    VisitAllPlaces(x, sets, [], names);
  }

  // ---- Compiled rules and their sources ----

  /** Each compiled rule is compiled from the source rule at its place. */
  ghost predicate Paired(x: Expr, rs: seq<Rule>, cs: seq<CompiledRule>) {
    |rs| == |cs| && forall n | 0 <= n < |rs| :: CompileRule(x, rs[n]) == Some(cs[n])
  }

  lemma PairedConcat(x: Expr, a: seq<Rule>, b: seq<Rule>, c: seq<CompiledRule>, d: seq<CompiledRule>)
    requires Paired(x, a, c) && Paired(x, b, d)
    ensures Paired(x, a + b, c + d)
  {
  }

  lemma {:induction false} CompiledPaired(x: Expr, rs: seq<Rule>)
    requires CompileRules(x, rs).Some?
    ensures Paired(x, rs, CompileRules(x, rs).value)
  {
    if rs != [] {
      CompiledPaired(x, rs[1..]);
      assert rs == [rs[0]] + rs[1..];
      PairedConcat(x, [rs[0]], rs[1..], [CompileRule(x, rs[0]).value], CompileRules(x, rs[1..]).value);
    }
  }

  lemma {:induction false} FlattenPaired(x: Expr, sets: RuleSets, order: seq<string>)
    requires forall n <- order :: n in sets && CompileRules(x, sets[n].rules).Some?
    ensures Paired(x, RulesIn(sets, order), Flatten(x, sets, order))
    decreases |order|
  {
    if order != [] {
      var init, n := order[..|order| - 1], order[|order| - 1];
      FlattenPaired(x, sets, init);
      CompiledPaired(x, sets[n].rules);
      PairedConcat(x, RulesIn(sets, init), sets[n].rules, Flatten(x, sets, init), OwnRules(x, sets, n));
    }
  }

  /** What a compiled rule keeps of its source: every text under its own name, compiled. */
  lemma CompiledFields(x: Expr, r: Rule)
    requires CompileRule(x, r).Some?
    ensures var c := CompileRule(x, r).value;
            && x.compile(r.filter) == Some(c.filter) && CompileRules(x, r.children) == Some(c.children)
            && c.add.Keys == r.add.Keys && c.remove.Keys == r.remove.Keys
            && (forall k <- r.add :: c.add[k].Keys == r.add[k].Keys)
            && (forall k <- r.add, v <- r.add[k] :: x.compile(r.add[k][v]) == Some(c.add[k][v]))
  {
  }

  lemma {:induction false} MatchingPaired(x: Expr, i: Input, rs: seq<Rule>, cs: seq<CompiledRule>)
    requires Paired(x, rs, cs)
    ensures Paired(x, Matching(x, i, rs), Matched(x, i, cs))
    decreases rs
  {
    if rs != [] {
      var r, c := rs[0], cs[0];
      CompiledFields(x, r);
      MatchingPaired(x, i, rs[1..], cs[1..]);
      if Matches(x, i, c) {
        CompiledPaired(x, r.children);
        MatchingPaired(x, i, r.children, c.children);
        PairedConcat(x, [r], Matching(x, i, r.children), [c], Matched(x, i, c.children));
      }
      PairedConcat(x, MatchingIn(x, i, r), Matching(x, i, rs[1..]), MatchedIn(x, i, c), Matched(x, i, cs[1..]));
    }
  }

  lemma {:induction false} ReachingPaired(x: Expr, i: Input, rs: seq<Rule>, cs: seq<CompiledRule>)
    requires Paired(x, rs, cs)
    ensures Paired(x, Reaching(x, i, rs), Reached(x, i, cs))
    decreases rs
  {
    if rs != [] {
      var r, c := rs[0], cs[0];
      CompiledFields(x, r);
      ReachingPaired(x, i, rs[1..], cs[1..]);
      if Matches(x, i, c) {
        CompiledPaired(x, r.children);
        ReachingPaired(x, i, r.children, c.children);
        PairedConcat(x, [r], Reaching(x, i, r.children), [c], Reached(x, i, c.children));
      }
      PairedConcat(x, ReachingIn(x, i, r), Reaching(x, i, rs[1..]), ReachedIn(x, i, c), Reached(x, i, cs[1..]));
    }
  }

  lemma AllRulesPaired(x: Expr, sets: RuleSets, names: seq<string>)
    requires WellNamed(sets) && CompileOrder(x, sets).Visited? && SortedNames(sets, names)
    ensures Paired(x, AllRules(sets, names), Flatten(x, sets, CompileOrder(x, sets).done))
  {
    OrderIsPlaced(x, sets, names);
    CompileOrderOk(x, sets);
    var order := CompileOrder(x, sets).done;
    forall n <- order ensures n in sets && CompileRules(x, sets[n].rules).Some? {
      assert order[IndexOf(order, n)] == n;
    }
    FlattenPaired(x, sets, order);
  }

  // ---- Main results ----

  lemma LastAddPaired(x: Expr, ms: seq<Rule>, cs: seq<CompiledRule>, j: int, k: string)
    requires Paired(x, ms, cs)
    ensures LastAdd(ms, j, k) <==> AddsLast(cs, j, k)
  {
    forall n | 0 <= n < |ms| ensures cs[n].add.Keys == ms[n].add.Keys && cs[n].remove.Keys == ms[n].remove.Keys {
      CompiledFields(x, ms[n]);
    }
  }

  lemma EvaluatedPaired(x: Expr, i: Input, r: Rule, c: CompiledRule, k: string, settings: map<string, Value>)
    requires CompileRule(x, r) == Some(c) && k in c.add && settings.Keys == c.add[k].Keys
    requires forall v <- settings :: x.run(c.add[k][v], i) == Some(settings[v])
    ensures Evaluated(x, i, r, k, settings)
  {
    CompiledFields(x, r);
  }

  /** What the compiled rules decide, in terms of the rules they were compiled from. */
  lemma PairedDecides(x: Expr, i: Input, ms: seq<Rule>, cs: seq<CompiledRule>, out: Capabilities, k: string)
    requires Paired(x, ms, cs) && DecidedByLast(x, i, cs, out, k)
    ensures Decided(x, i, ms, out, k)
  {
    if k in out {
      var j :| AddsLast(cs, j, k);
      LastAddPaired(x, ms, cs, j, k);
      assert LastAdd(ms, j, k);
    }
    forall j | LastAdd(ms, j, k) ensures k in out && Evaluated(x, i, ms[j], k, out[k]) {
      LastAddPaired(x, ms, cs, j, k);
      EvaluatedPaired(x, i, ms[j], cs[j], k, out[k]);
    }
  }

  /**
   * After compiling and executing, a capability is in the output exactly when the rules' last word on it is an Add, and
   * its settings are what that rule's texts evaluate to. Said of the rule sets and the expressions alone.
   */
  lemma SourceDecides(x: Expr, i: Input, sets: RuleSets, names: seq<string>, k: string)
    requires WellNamed(sets) && CompileOrder(x, sets).Visited? && SortedNames(sets, names)
    requires ExecRules(x, i, map[], Flatten(x, sets, CompileOrder(x, sets).done)).Some?
    ensures var out := ExecRules(x, i, map[], Flatten(x, sets, CompileOrder(x, sets).done)).value;
            Decided(x, i, Matching(x, i, AllRules(sets, names)), out, k)
  {
    var rules := Flatten(x, sets, CompileOrder(x, sets).done);
    AllRulesPaired(x, sets, names);
    MatchingPaired(x, i, AllRules(sets, names), rules);
    OutputIsLastOperation(x, i, rules, k);
    PairedDecides(x, i, Matching(x, i, AllRules(sets, names)), Matched(x, i, rules),
                  ExecRules(x, i, map[], rules).value, k);
  }

  /** A capability's settings in the output are just those that the rules' last word asks for. */
  lemma SourceAsks(x: Expr, i: Input, sets: RuleSets, names: seq<string>, k: string, settings: map<string, Value>)
    requires WellNamed(sets) && CompileOrder(x, sets).Visited? && SortedNames(sets, names)
    requires ExecRules(x, i, map[], Flatten(x, sets, CompileOrder(x, sets).done)).Some?
    ensures var out := ExecRules(x, i, map[], Flatten(x, sets, CompileOrder(x, sets).done)).value;
            Asks(x, i, Matching(x, i, AllRules(sets, names)), k, settings) <==> k in out && out[k] == settings
  {
    SourceDecides(x, i, sets, names, k);
    DecidedAsks(x, i, Matching(x, i, AllRules(sets, names)),
                ExecRules(x, i, map[], Flatten(x, sets, CompileOrder(x, sets).done)).value, k, settings);
  }

  lemma DecidedAsks(x: Expr, i: Input, ms: seq<Rule>, out: Capabilities, k: string, settings: map<string, Value>)
    requires Decided(x, i, ms, out, k)
    ensures Asks(x, i, ms, k, settings) <==> k in out && out[k] == settings
  {
    if k in out && out[k] == settings {
      var j :| LastAdd(ms, j, k);
      assert Evaluated(x, i, ms[j], k, out[k]);
    }
    if j :| LastAdd(ms, j, k) && Evaluated(x, i, ms[j], k, settings) {
      assert forall v <- settings :: settings[v] == out[k][v];
    }
  }

  /** Execution succeeds exactly when every rule it reaches evaluates, said of the source texts alone. */
  lemma SourceRunsIff(x: Expr, i: Input, sets: RuleSets, names: seq<string>)
    requires WellNamed(sets) && CompileOrder(x, sets).Visited? && SortedNames(sets, names)
    ensures ExecRules(x, i, map[], Flatten(x, sets, CompileOrder(x, sets).done)).Some? <==>
            forall r <- Reaching(x, i, AllRules(sets, names)) :: Evaluates(x, i, r)
  {
    var rules := Flatten(x, sets, CompileOrder(x, sets).done);
    var rs, cs := Reaching(x, i, AllRules(sets, names)), Reached(x, i, rules);
    AllRulesPaired(x, sets, names);
    ReachingPaired(x, i, AllRules(sets, names), rules);
    RulesRunIff(x, i, map[], rules);
    forall n | 0 <= n < |rs| ensures RuleRuns(x, i, cs[n]) <==> Evaluates(x, i, rs[n]) {
      CompiledFields(x, rs[n]);
    }
    assert forall n | 0 <= n < |rs| :: rs[n] in rs && cs[n] in cs;
  }
}
