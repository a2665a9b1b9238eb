/** The rules engine of rules/engine.go: loading, compiling and executing rule sets in place. */
module RuleEngine {
  import opened Wrappers
  import opened RuleModel
  import opened Sequences
  import opened SortedStrings
  import opened RuleCompileSpec
  import opened RuleCompileProof
  import opened RuleExecuteSpec

  /** The map shared by all visits of one compilation. */
  class LoadState {
    var alreadyLoaded: map<string, bool>

    constructor (names: set<string>)
      ensures alreadyLoaded == map n <- names :: false
    {
      alreadyLoaded := map n <- names :: false;
    }

    predicate Loaded(n: string) reads this {
      n in alreadyLoaded && alreadyLoaded[n]
    }

    ghost predicate Holds(done: seq<string>) reads this {
      forall n :: Loaded(n) <==> n in done
    }
  }

  class Output {
    var capabilities: Capabilities

    constructor ()
      ensures capabilities == map[]
    {
      capabilities := map[];
    }
  }

  method CompileCapabilityValue(x: Expr, values: map<string, string>) returns (r: Option<map<string, Program>>)
    ensures r == CompileValues(x, values)
  {
    var ret: map<string, Program> := map[];
    var todo := values.Keys;
    while todo != {}
      invariant todo <= values.Keys && ret.Keys == values.Keys - todo
      invariant forall k <- ret :: x.compile(values[k]) == Some(ret[k])
    {
      var k :| k in todo;
      var p := x.compile(values[k]);
      if p.None? { return None; }
      ret := ret[k := p.value];
      todo := todo - {k};
    }
    assert forall k <- values :: k in ret;
    assert ret == map k <- values :: x.compile(values[k]).value;
    return Some(ret);
  }

  method CompileActionParameters(x: Expr, params: Params) returns (r: Option<CompiledParams>)
    ensures r == CompileParams(x, params)
  {
    var ret: CompiledParams := map[];
    var todo := params.Keys;
    while todo != {}
      invariant todo <= params.Keys && ret.Keys == params.Keys - todo
      invariant forall k <- ret :: CompileValues(x, params[k]) == Some(ret[k])
    {
      var k :| k in todo;
      var v := CompileCapabilityValue(x, params[k]);
      if v.None? { return None; }
      ret := ret[k := v.value];
      todo := todo - {k};
    }
    assert forall k <- params :: k in ret;
    assert ret == map k <- params :: CompileValues(x, params[k]).value;
    return Some(ret);
  }

  lemma {:induction false} CompileRulesSnoc(x: Expr, rs: seq<Rule>, n: nat)
    requires n < |rs|
    ensures var a, r := CompileRules(x, rs[..n]), CompileRule(x, rs[n]);
            CompileRules(x, rs[..n + 1]) == if a.Some? && r.Some? then Some(a.value + [r.value]) else None
  {
    if n == 0 {
      assert rs[..0] == [] && rs[..1] == [rs[0]];
      assert CompileRules(x, rs[..1][1..]) == Some([]);
      assert forall h: CompiledRule :: [h] + [] == [] + [h];
    } else {
      CompileRulesSnoc(x, rs[1..], n - 1);
      assert rs[..n][1..] == rs[1..][..n - 1] && rs[..n + 1][1..] == rs[1..][..n];
      assert rs[..n + 1][0] == rs[0] == rs[..n][0];
      var h, a, r := CompileRule(x, rs[0]), CompileRules(x, rs[1..][..n - 1]), CompileRule(x, rs[n]);
      if h.Some? && a.Some? && r.Some? {
        assert [h.value] + (a.value + [r.value]) == ([h.value] + a.value) + [r.value];
      }
    }
  }

  lemma {:induction false} CompileRulesFailsOn(x: Expr, rs: seq<Rule>, n: nat)
    requires n < |rs| && CompileRule(x, rs[n]).None?
    ensures CompileRules(x, rs).None?
  {
    if n > 0 { CompileRulesFailsOn(x, rs[1..], n - 1); }
  }

  method CompileRuleTree(x: Expr, rules: seq<Rule>) returns (r: Option<seq<CompiledRule>>)
    ensures r == CompileRules(x, rules)
    decreases rules
  {
    var compiled: seq<CompiledRule> := [];
    for n := 0 to |rules|
      invariant CompileRules(x, rules[..n]) == Some(compiled)
    {
      var rule := rules[n];
      CompileRulesSnoc(x, rules, n);
      var filter := x.compile(rule.filter);
      if filter.None? { CompileRulesFailsOn(x, rules, n); return None; }
      var children := CompileRuleTree(x, rule.children);
      if children.None? { CompileRulesFailsOn(x, rules, n); return None; }
      var add := CompileActionParameters(x, rule.add);
      if add.None? { CompileRulesFailsOn(x, rules, n); return None; }
      var remove := CompileActionParameters(x, rule.remove);
      if remove.None? { CompileRulesFailsOn(x, rules, n); return None; }
      compiled := compiled + [CompiledRule(rule.description, filter.value, add.value, remove.value, children.value)];
    }
    assert rules[..|rules|] == rules;
    return Some(compiled);
  }

  class Engine {
    const x: Expr
    var ruleSets: RuleSets
    var rules: seq<CompiledRule>

    constructor (x: Expr)
      ensures this.x == x && ruleSets == map[] && rules == []
      ensures WellNamed(ruleSets)
    {
      this.x := x;
      ruleSets, rules := map[], [];
    }

    /** The decoded rule set is stored under its own name, replacing any earlier one. */
    method Load(rs: RuleSet)
      requires WellNamed(ruleSets)
      modifies this`ruleSets
      ensures ruleSets == old(ruleSets)[rs.name := rs]
      ensures WellNamed(ruleSets)
    {
      ruleSets := ruleSets[rs.name := rs];
    }

    method SortedNames() returns (names: seq<string>)
      ensures names == Sort(SomeOrder(ruleSets.Keys)) && forall n <- names :: n in ruleSets
    {
      names := InSomeOrder(ruleSets.Keys);
      SortCanonical(names, SomeOrder(ruleSets.Keys));
      SortSorts(names);
      names := Sort(names);
      assert forall n <- names :: n in Elements(names);
    }

    method CompileRules() returns (err: Option<CompileError>)
      requires WellNamed(ruleSets)
      modifies this`rules
      ensures var v := CompileOrder(x, ruleSets);
              && rules == old(rules) + Flatten(x, ruleSets, v.done)
              && err == if v.Visited? then None else Some(v.error)
      ensures err.None? <==> AllDependenciesLoaded(ruleSets) && Acyclic(ruleSets) && AllExpressionsCompile(x, ruleSets)
    {
      CompileSucceedsIff(x, ruleSets);
      var state := new LoadState(ruleSets.Keys);
      var names := SortedNames();
      err := CompileNames(state, names, rules);
    }

    method CompileNames(state: LoadState, names: seq<string>, ghost base: seq<CompiledRule>)
      returns (err: Option<CompileError>)
      requires WellNamed(ruleSets) && At(state, base, [])
      modifies this`rules, state
      ensures var v := VisitAll(x, ruleSets, [], names);
              At(state, base, v.done) && err == if v.Visited? then None else Some(v.error)
    {
      ghost var done: seq<string> := [];
      for n := 0 to |names|
        invariant At(state, base, done)
        invariant VisitAll(x, ruleSets, done, names[n..]) == VisitAll(x, ruleSets, [], names)
      {
        assert names[n..][0] == names[n] && names[n..][1..] == names[n + 1..];
        if !state.Loaded(names[n]) {
          ghost var v := VisitSet(x, ruleSets, done, [], names[n]);
          err := CompileRuleSet(state, [], names[n], base, done);
          done := v.done;
          if err.Some? { return; }
        }
      }
      return None;
    }

    /** The rules are those compiled before this run and those of the sets visited so far. */
    ghost predicate At(state: LoadState, base: seq<CompiledRule>, done: seq<string>)
      reads this, state
    {
      state.Holds(done) && rules == base + Flatten(x, ruleSets, done)
    }

    method CompileRuleSet(state: LoadState, trail: seq<string>, name: string,
                          ghost base: seq<CompiledRule>, ghost done: seq<string>)
      returns (err: Option<CompileError>)
      requires WellNamed(ruleSets) && name !in trail && At(state, base, done)
      modifies this`rules, state
      ensures var v := VisitSet(x, ruleSets, done, trail, name);
              At(state, base, v.done) && err == if v.Visited? then None else Some(v.error)
      decreases ruleSets.Keys - Elements(trail), 0
    {
      if name !in ruleSets { return Some(MissingDependency(trail, name)); }
      var rs := ruleSets[name];
      var extended := trail + [rs.name];
      assert name in ruleSets.Keys - Elements(trail) && Elements(extended) == Elements(trail) + {name};
      ghost var v := VisitDeps(x, ruleSets, done, extended, rs.dependsOn);
      err := CompileDependencies(state, extended, rs.dependsOn, base, done);
      if err.Some? { return; }
      var compiled := CompileRuleTree(x, rs.rules);
      if compiled.None? { return Some(BadExpression(extended)); }
      MarkLoaded(state, name, compiled.value, base, v.done);
      return None;
    }

    method MarkLoaded(state: LoadState, name: string, compiled: seq<CompiledRule>,
                      ghost base: seq<CompiledRule>, ghost done: seq<string>)
      requires At(state, base, done) && compiled == OwnRules(x, ruleSets, name)
      modifies this`rules, state
      ensures At(state, base, done + [name])
    {
      FlattenSnoc(x, ruleSets, done, name);
      ConcatAssociates(base, Flatten(x, ruleSets, done), compiled);
      rules := rules + compiled;
      state.alreadyLoaded := state.alreadyLoaded[name := true];
    }

    method CompileDependencies(state: LoadState, trail: seq<string>, deps: seq<string>,
                               ghost base: seq<CompiledRule>, ghost done: seq<string>)
      returns (err: Option<CompileError>)
      requires WellNamed(ruleSets) && At(state, base, done)
      modifies this`rules, state
      ensures var v := VisitDeps(x, ruleSets, done, trail, deps);
              At(state, base, v.done) && err == if v.Visited? then None else Some(v.error)
      decreases ruleSets.Keys - Elements(trail), 1
    {
      ghost var d := done;
      for n := 0 to |deps|
        invariant At(state, base, d)
        invariant VisitDeps(x, ruleSets, d, trail, deps[n..]) == VisitDeps(x, ruleSets, done, trail, deps)
      {
        var k := deps[n];
        assert deps[n..][0] == k && deps[n..][1..] == deps[n + 1..];
        if k in trail { return Some(CircularDependency(trail, k)); }
        if !state.Loaded(k) {
          ghost var v := VisitSet(x, ruleSets, d, trail, k);
          err := CompileRuleSet(state, trail, k, base, d);
          d := v.done;
          if err.Some? { return; }
        }
      }
      return None;
    }

    method Execute(i: Input) returns (r: Option<Capabilities>)
      ensures r == ExecRules(x, i, map[], rules)
    {
      var o := new Output();
      for n := 0 to |rules|
        invariant fresh(o)
        invariant ExecRules(x, i, map[], rules) == ExecRules(x, i, o.capabilities, rules[n..])
      {
        var ok := ExecuteRule(i, o, rules[n]);
        if !ok { return None; }
      }
      return Some(o.capabilities);
    }

    method ExecuteRule(i: Input, o: Output, r: CompiledRule) returns (ok: bool)
      modifies o
      ensures var e := ExecRule(x, i, old(o.capabilities), r);
              ok == e.Some? && (ok ==> o.capabilities == e.value)
      decreases r
    {
      match x.run(r.filter, i) {
        case Some(Bool(matched)) =>
          if !matched { return true; }
        case _ =>
          return false;
      }

      ghost var start := o.capabilities;
      ok := Add(i, o, r);
      if !ok { return; }
      Remove(o, r);
      for n := 0 to |r.children|
        invariant ExecRule(x, i, start, r) == ExecRules(x, i, o.capabilities, r.children[n..])
      {
        ok := ExecuteRule(i, o, r.children[n]);
        if !ok { return; }
      }
      return true;
    }

    method Add(i: Input, o: Output, r: CompiledRule) returns (ok: bool)
      modifies o
      ensures ok == AddsRun(x, i, r)
      ensures ok ==> o.capabilities == old(o.capabilities) + Added(x, i, r)
    {
      ghost var start := o.capabilities;
      var todo := r.add.Keys;
      while todo != {}
        invariant todo <= r.add.Keys
        invariant o.capabilities.Keys == start.Keys + (r.add.Keys - todo)
        invariant forall k | k in r.add && k !in todo ::
                    ValuesRun(x, i, r.add[k]) && o.capabilities[k] == ValuesOf(x, i, r.add[k])
        invariant forall k | k in start && (k !in r.add || k in todo) :: o.capabilities[k] == start[k]
      {
        var k :| k in todo;
        var values := RunValues(i, r.add[k]);
        if values.None? { return false; }
        o.capabilities := o.capabilities[k := values.value];
        todo := todo - {k};
      }
      return true;
    }

    method Remove(o: Output, r: CompiledRule)
      modifies o
      ensures o.capabilities == old(o.capabilities) - r.remove.Keys
    {
      var todo := r.remove.Keys;
      while todo != {}
        invariant todo <= r.remove.Keys
        invariant o.capabilities == old(o.capabilities) - (r.remove.Keys - todo)
      {
        var k :| k in todo;
        o.capabilities := o.capabilities - {k};
        todo := todo - {k};
      }
    }

    method RunValues(i: Input, values: map<string, Program>) returns (r: Option<map<string, Value>>)
      ensures r == if ValuesRun(x, i, values) then Some(ValuesOf(x, i, values)) else None
    {
      var ret: map<string, Value> := map[];
      var todo := values.Keys;
      while todo != {}
        invariant todo <= values.Keys && ret.Keys == values.Keys - todo
        invariant forall k <- ret :: x.run(values[k], i) == Some(ret[k])
      {
        var k :| k in todo;
        var v := x.run(values[k], i);
        if v.None? { return None; }
        ret := ret[k := v.value];
        todo := todo - {k};
      }
      assert forall k <- values :: k in ret;
      assert ret == map k <- values :: x.run(values[k], i).value;
      return Some(ret);
    }
  }
}
