/** What compiling rule sets means: the expressions, and the depth-first order of the sets. */
module RuleCompileSpec {
  import opened Wrappers
  import opened RuleModel
  import opened Sequences
  import opened SortedStrings

  // ---- One rule set: expressions ----

  function CompileValues(x: Expr, values: map<string, string>): Option<map<string, Program>> {
    if forall k <- values :: x.compile(values[k]).Some?
    then Some(map k <- values :: x.compile(values[k]).value)
    else None
  }

  function CompileParams(x: Expr, params: Params): Option<CompiledParams> {
    if forall k <- params :: CompileValues(x, params[k]).Some?
    then Some(map k <- params :: CompileValues(x, params[k]).value)
    else None
  }

  function CompileRule(x: Expr, r: Rule): Option<CompiledRule>
    decreases r
  {
    var filter, children := x.compile(r.filter), CompileRules(x, r.children);
    var add, remove := CompileParams(x, r.add), CompileParams(x, r.remove);
    if filter.Some? && children.Some? && add.Some? && remove.Some?
    then Some(CompiledRule(r.description, filter.value, add.value, remove.value, children.value))
    else None
  }

  function CompileRules(x: Expr, rs: seq<Rule>): Option<seq<CompiledRule>>
    decreases rs
  {
    if rs == [] then Some([]) else
      var head, tail := CompileRule(x, rs[0]), CompileRules(x, rs[1..]);
      if head.Some? && tail.Some? then Some([head.value] + tail.value) else None
  }

  /** Every expression text of a rule tree: filters, added and removed values, and the children's. */
  ghost function Texts(r: Rule): set<string>
    decreases r
  {
    {r.filter} + ParamTexts(r.add) + ParamTexts(r.remove) + AllTexts(r.children)
  }

  ghost function AllTexts(rs: seq<Rule>): set<string>
    decreases rs
  {
    if rs == [] then {} else Texts(rs[0]) + AllTexts(rs[1..])
  }

  ghost function ParamTexts(params: Params): set<string> {
    set k, v | k in params && v in params[k] :: params[k][v]
  }

  lemma ParamsCompileIff(x: Expr, params: Params)
    ensures CompileParams(x, params).Some? <==> forall t <- ParamTexts(params) :: x.compile(t).Some?
  {
    if CompileParams(x, params).Some? {
      forall t <- ParamTexts(params) ensures x.compile(t).Some? {
        var k, v :| k in params && v in params[k] && params[k][v] == t;
        assert CompileValues(x, params[k]).Some?;
      }
    } else {
      var k :| k in params && CompileValues(x, params[k]).None?;
      var v :| v in params[k] && x.compile(params[k][v]).None?;
      assert params[k][v] in ParamTexts(params);
    }
  }

  lemma {:induction false} RuleCompilesIff(x: Expr, r: Rule)
    ensures CompileRule(x, r).Some? <==> forall t <- Texts(r) :: x.compile(t).Some?
    decreases r
  {
    ParamsCompileIff(x, r.add);
    ParamsCompileIff(x, r.remove);
    RulesCompileIff(x, r.children);
    assert r.filter in Texts(r);
  }

  /** A rule list compiles exactly when each expression anywhere in its trees does. */
  lemma {:induction false} RulesCompileIff(x: Expr, rs: seq<Rule>)
    ensures CompileRules(x, rs).Some? <==> forall t <- AllTexts(rs) :: x.compile(t).Some?
    decreases rs
  {
    if rs != [] {
      RuleCompilesIff(x, rs[0]);
      RulesCompileIff(x, rs[1..]);
    }
  }

  // ---- The depth-first visit ----

  /** The outcome of visiting rule sets: `done` lists, in order, the sets whose rules were appended. */
  datatype Visit = Visited(done: seq<string>) | Aborted(done: seq<string>, error: CompileError)

  function VisitSet(x: Expr, sets: RuleSets, done: seq<string>, trail: seq<string>, name: string): Visit
    requires WellNamed(sets) && name !in trail
    decreases sets.Keys - Elements(trail), 0
  {
    if name !in sets then Aborted(done, MissingDependency(trail, name)) else
      var extended := trail + [name];
      assert name in sets.Keys - Elements(trail) && name in Elements(extended);
      assert Elements(extended) == Elements(trail) + {name};
      var v := VisitDeps(x, sets, done, extended, sets[name].dependsOn);
      if v.Aborted? then v
      else if CompileRules(x, sets[name].rules).None? then Aborted(v.done, BadExpression(extended))
      else Visited(v.done + [name])
  }

  function VisitDeps(x: Expr, sets: RuleSets, done: seq<string>, trail: seq<string>, deps: seq<string>): Visit
    requires WellNamed(sets)
    decreases sets.Keys - Elements(trail), |deps|
  {
    if deps == [] then Visited(done)
    else if deps[0] in trail then Aborted(done, CircularDependency(trail, deps[0]))
    else if deps[0] in done then VisitDeps(x, sets, done, trail, deps[1..])
    else
      var v := VisitSet(x, sets, done, trail, deps[0]);
      if v.Aborted? then v else VisitDeps(x, sets, v.done, trail, deps[1..])
  }

  function VisitAll(x: Expr, sets: RuleSets, done: seq<string>, names: seq<string>): Visit
    requires WellNamed(sets)
    decreases |names|
  {
    if names == [] then Visited(done)
    else if names[0] in done then VisitAll(x, sets, done, names[1..])
    else
      var v := VisitSet(x, sets, done, [], names[0]);
      if v.Aborted? then v else VisitAll(x, sets, v.done, names[1..])
  }

  ghost function SomeOrder(names: set<string>): (s: seq<string>)
    ensures Distinct(s) && Elements(s) == names
  {
    if names == {} then [] else
      var x :| x in names;
      var rest := SomeOrder(names - {x});
      assert x !in Elements(rest);
      assert Elements([x] + rest) == Elements(rest) + {x};
      [x] + rest
  }

  /** The whole compilation, fixed by the rule sets alone. */
  ghost function CompileOrder(x: Expr, sets: RuleSets): Visit
    requires WellNamed(sets)
  {
    VisitAll(x, sets, [], Sort(SomeOrder(sets.Keys)))
  }

  /** The compiled rules of one set. */
  function OwnRules(x: Expr, sets: RuleSets, n: string): seq<CompiledRule> {
    if n in sets && CompileRules(x, sets[n].rules).Some? then CompileRules(x, sets[n].rules).value else []
  }

  /** The compiled rules of the listed sets, one after another. */
  function Flatten(x: Expr, sets: RuleSets, order: seq<string>): seq<CompiledRule> {
    if order == [] then [] else Flatten(x, sets, order[..|order| - 1]) + OwnRules(x, sets, order[|order| - 1])
  }

  lemma FlattenSnoc(x: Expr, sets: RuleSets, order: seq<string>, n: string)
    ensures Flatten(x, sets, order + [n]) == Flatten(x, sets, order) + OwnRules(x, sets, n)
  {
    assert (order + [n])[..|order|] == order;
  }

  lemma {:induction false} FlattenConcat(x: Expr, sets: RuleSets, a: seq<string>, b: seq<string>)
    ensures Flatten(x, sets, a + b) == Flatten(x, sets, a) + Flatten(x, sets, b)
  {
    if b == [] {
      assert a + b == a;
    } else {
      var init, n := b[..|b| - 1], b[|b| - 1];
      FlattenConcat(x, sets, a, init);
      Last(b);
      ConcatAssociates(a, init, [n]);
      FlattenSnoc(x, sets, a + init, n);
      ConcatAssociates(Flatten(x, sets, a), Flatten(x, sets, init), OwnRules(x, sets, n));
    }
  }

  // ---- The dependency graph ----

  ghost predicate Edge(sets: RuleSets, a: string, b: string) {
    a in sets && b in sets[a].dependsOn
  }

  /** A sequence of names each of which depends on the next. */
  ghost predicate Chain(sets: RuleSets, p: seq<string>) {
    forall i | 0 <= i < |p| - 1 :: Edge(sets, p[i], p[i + 1])
  }

  ghost predicate Cycle(sets: RuleSets, p: seq<string>) {
    |p| >= 2 && Chain(sets, p) && p[0] == p[|p| - 1]
  }

  ghost predicate Acyclic(sets: RuleSets) {
    forall p :: !Cycle(sets, p)
  }

  ghost predicate TransitivelyDependsOn(sets: RuleSets, a: string, b: string) {
    exists p :: |p| >= 2 && Chain(sets, p) && p[0] == a && p[|p| - 1] == b
  }

  ghost predicate AllDependenciesLoaded(sets: RuleSets) {
    forall n <- sets :: forall d <- sets[n].dependsOn :: d in sets
  }

  ghost predicate AllExpressionsCompile(x: Expr, sets: RuleSets) {
    forall n <- sets :: forall t <- AllTexts(sets[n].rules) :: x.compile(t).Some?
  }

  /** A list of visited sets: no repeats, all loaded and compiling, each after all it depends on. */
  ghost predicate Ordered(x: Expr, sets: RuleSets, done: seq<string>) {
    && Distinct(done)
    && forall i | 0 <= i < |done| ::
         && done[i] in sets
         && CompileRules(x, sets[done[i]].rules).Some?
         && forall d <- sets[done[i]].dependsOn :: d in done[..i]
  }

  /** The error tells the truth: it exhibits the missing set, the cycle or the bad expression. */
  ghost predicate Genuine(x: Expr, sets: RuleSets, e: CompileError) {
    && Chain(sets, e.trail)
    && match e
       case MissingDependency(trail, name) => name !in sets && trail != [] && Edge(sets, trail[|trail| - 1], name)
       case CircularDependency(trail, name) =>
         exists i | 0 <= i < |trail| :: trail[i] == name && Cycle(sets, trail[i..] + [name])
       case BadExpression(trail) =>
         && trail != [] && trail[|trail| - 1] in sets
         && exists t <- AllTexts(sets[trail[|trail| - 1]].rules) :: x.compile(t).None?
  }
}
