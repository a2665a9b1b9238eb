/** What compiling and then executing preserves: dependency order and idempotence. */
module RuleMeaning {
  import opened Wrappers
  import opened RuleModel
  import opened Sequences
  import opened RuleCompileSpec
  import opened RuleCompileProof
  import opened RuleExecuteSpec
  import opened RuleExecuteProof
  import opened RuleEngine
  import opened RuleSource
  import opened RuleSourceProof

  /** Some matching rule of set `n` adds or removes `k`. */
  ghost predicate OperatesOn(x: Expr, i: Input, sets: RuleSets, n: string, k: string) {
    LastOperation(x, i, Matched(x, i, Flatten(x, sets, [n])), k).Some?
  }

  function Without(order: seq<string>, n: string): seq<string>
    requires n in order
  {
    order[..IndexOf(order, n)] + order[IndexOf(order, n) + 1..]
  }

  ghost predicate AgreeOn(a: Capabilities, b: Capabilities, k: string) {
    (k in a <==> k in b) && (k in a ==> a[k] == b[k])
  }

  lemma ReachedConcat(x: Expr, i: Input, a: seq<CompiledRule>, b: seq<CompiledRule>)
    ensures Reached(x, i, a + b) == Reached(x, i, a) + Reached(x, i, b)
    decreases |a|
  {
    if a == [] {
      assert a + b == b;
    } else {
      assert (a + b)[1..] == a[1..] + b && (a + b)[0] == a[0];
      ReachedConcat(x, i, a[1..], b);
    }
  }

  lemma {:induction false} LaterOperationWins(x: Expr, i: Input, a: seq<CompiledRule>, b: seq<CompiledRule>,
                                              c: seq<CompiledRule>,
                                              k: string)
    requires ExecRules(x, i, map[], a + b + c).Some?
    requires LastOperation(x, i, Matched(x, i, c), k).Some?
    ensures ExecRules(x, i, map[], a + c).Some?
    ensures AgreeOn(ExecRules(x, i, map[], a + b + c).value, ExecRules(x, i, map[], a + c).value, k)
  {
    RulesRunIff(x, i, map[], a + b + c);
    RulesRunIff(x, i, map[], a + c);
    ReachedConcat(x, i, a + b, c);
    ReachedConcat(x, i, a, b);
    ReachedConcat(x, i, a, c);
    RulesSettle(x, i, map[], a + b + c, k);
    RulesSettle(x, i, map[], a + c, k);
    MatchedConcat(x, i, a + b, c);
    MatchedConcat(x, i, a, c);
    LastOperationConcat(x, i, Matched(x, i, a + b), Matched(x, i, c), k);
    LastOperationConcat(x, i, Matched(x, i, a), Matched(x, i, c), k);
  }

  lemma {:induction false} SetInSuffixOperates(x: Expr, i: Input, sets: RuleSets, suffix: seq<string>, n: string,
                                               k: string)
    requires n in suffix && OperatesOn(x, i, sets, n, k)
    ensures LastOperation(x, i, Matched(x, i, Flatten(x, sets, suffix)), k).Some?
  {
    var j := IndexOf(suffix, n);
    assert suffix == suffix[..j] + ([n] + suffix[j + 1..]);
    FlattenConcat(x, sets, suffix[..j], [n] + suffix[j + 1..]);
    FlattenConcat(x, sets, [n], suffix[j + 1..]);
    var pre, mid, post := Flatten(x, sets, suffix[..j]), Flatten(x, sets, [n]), Flatten(x, sets, suffix[j + 1..]);
    MatchedConcat(x, i, pre, mid + post);
    MatchedConcat(x, i, mid, post);
    LastOperationConcat(x, i, Matched(x, i, pre), Matched(x, i, mid + post), k);
    LastOperationConcat(x, i, Matched(x, i, mid), Matched(x, i, post), k);
  }

  lemma DropOne(x: Expr, i: Input, sets: RuleSets, pre: seq<string>, b: string, post: seq<string>, k: string, a: string)
    requires a in post && OperatesOn(x, i, sets, a, k)
    requires ExecRules(x, i, map[], Flatten(x, sets, pre + [b] + post)).Some?
    ensures ExecRules(x, i, map[], Flatten(x, sets, pre + post)).Some?
    ensures AgreeOn(ExecRules(x, i, map[], Flatten(x, sets, pre + [b] + post)).value,
                    ExecRules(x, i, map[], Flatten(x, sets, pre + post)).value, k)
  {
    var p, q, r := Flatten(x, sets, pre), Flatten(x, sets, [b]), Flatten(x, sets, post);
    assert Flatten(x, sets, pre + [b] + post) == p + q + r by {
      FlattenConcat(x, sets, pre + [b], post);
      FlattenConcat(x, sets, pre, [b]);
    }
    assert Flatten(x, sets, pre + post) == p + r by { FlattenConcat(x, sets, pre, post); }
    SetInSuffixOperates(x, i, sets, post, a, k);
    LaterOperationWins(x, i, p, q, r, k);
  }

  lemma SplitAt(x: Expr, sets: RuleSets, order: seq<string>, a: string, b: string)
    returns (pre: seq<string>, post: seq<string>)
    requires Ordered(x, sets, order) && a in order && TransitivelyDependsOn(sets, a, b)
    ensures b in order && order == pre + [b] + post && a in post && Without(order, b) == pre + post
  {
    var p :| |p| >= 2 && Chain(sets, p) && p[0] == a && p[|p| - 1] == b;
    ChainDescends(x, sets, order, p);
    var j := IndexOf(order, b);
    pre, post := order[..j], order[j + 1..];
    assert a == post[IndexOf(order, a) - j - 1];
  }

  lemma OrderedDependentOverrules(x: Expr, i: Input, sets: RuleSets, order: seq<string>, a: string, b: string,
                                  k: string)
    requires Ordered(x, sets, order) && a in order
    requires TransitivelyDependsOn(sets, a, b) && OperatesOn(x, i, sets, a, k)
    requires ExecRules(x, i, map[], Flatten(x, sets, order)).Some?
    ensures b in order && ExecRules(x, i, map[], Flatten(x, sets, Without(order, b))).Some?
    ensures AgreeOn(ExecRules(x, i, map[], Flatten(x, sets, order)).value,
                    ExecRules(x, i, map[], Flatten(x, sets, Without(order, b))).value, k)
  {
    var pre, post := SplitAt(x, sets, order, a, b);
    DropOne(x, i, sets, pre, b, post, k, a);
  }

  /** When a set that transitively depends on `b` operates on `k`, dropping `b`'s own rules does not change `k`. */
  lemma DependentOverrules(x: Expr, i: Input, sets: RuleSets, a: string, b: string, k: string)
    requires WellNamed(sets) && CompileOrder(x, sets).Visited?
    requires a in sets && TransitivelyDependsOn(sets, a, b) && OperatesOn(x, i, sets, a, k)
    requires ExecRules(x, i, map[], Flatten(x, sets, CompileOrder(x, sets).done)).Some?
    ensures var order := CompileOrder(x, sets).done;
            && b in order
            && var all := ExecRules(x, i, map[], Flatten(x, sets, order));
               var some := ExecRules(x, i, map[], Flatten(x, sets, Without(order, b)));
               some.Some? && AgreeOn(all.value, some.value, k)
  {
    CompileOrderOk(x, sets);
    var order := CompileOrder(x, sets).done;
    assert a in Elements(order);
    OrderedDependentOverrules(x, i, sets, order, a, b, k);
  }

  /** Appending the whole compiled list again, as a second compilation does, changes no execution. */
  lemma SecondCompilationIsHarmless(x: Expr, i: Input, rs: seq<CompiledRule>)
    ensures ExecRules(x, i, map[], rs + rs) == ExecRules(x, i, map[], rs)
  {
    ExecConcat(x, i, map[], rs, rs);
    RulesRunIff(x, i, map[], rs);
    if ExecRules(x, i, map[], rs).Some? {
      var once := ExecRules(x, i, map[], rs).value;
      RulesRunIff(x, i, once, rs);
      var twice := ExecRules(x, i, once, rs).value;
      forall k ensures AgreeOn(once, twice, k) {
        RulesSettle(x, i, map[], rs, k);
        RulesSettle(x, i, once, rs, k);
      }
      assert forall k :: k in once <==> k in twice by {
        forall k ensures k in once <==> k in twice { assert AgreeOn(once, twice, k); }
      }
      forall k | k in once ensures once[k] == twice[k] { assert AgreeOn(once, twice, k); }
      assert once == twice;
    }
  }

  /** An engine that compiles again reports the same and executes the same, on every input. */
  method CompileTwice(e: Engine, i: Input)
    returns (first: Option<CompileError>, once: Option<Capabilities>, second: Option<CompileError>,
             twice: Option<Capabilities>)
    requires WellNamed(e.ruleSets) && e.rules == []
    modifies e`rules
    ensures second == first && twice == once
    ensures var rules := Flatten(e.x, e.ruleSets, CompileOrder(e.x, e.ruleSets).done); e.rules == rules + rules
  {
    ghost var rules := Flatten(e.x, e.ruleSets, CompileOrder(e.x, e.ruleSets).done);
    SecondCompilationIsHarmless(e.x, i, rules);
    assert [] + rules == rules;
    first := e.CompileRules();
    once := e.Execute(i);
    second := e.CompileRules();
    twice := e.Execute(i);
  }

  /**
   * Compiling and executing, said of the loaded sets alone: it compiles exactly when it should, it executes exactly
   * when every rule it reaches evaluates, and the rules' last word decides each capability and its settings.
   */
  method CompileAndExecute(e: Engine, i: Input, ghost names: seq<string>)
    returns (err: Option<CompileError>, out: Option<Capabilities>)
    requires WellNamed(e.ruleSets) && e.rules == [] && SortedNames(e.ruleSets, names)
    modifies e`rules
    ensures err.None? <==>
            AllDependenciesLoaded(e.ruleSets) && Acyclic(e.ruleSets) && AllExpressionsCompile(e.x, e.ruleSets)
    ensures err.None? ==>
              (out.Some? <==> forall r <- Reaching(e.x, i, AllRules(e.ruleSets, names)) :: Evaluates(e.x, i, r))
    ensures err.None? && out.Some? ==>
              forall k :: Decided(e.x, i, Matching(e.x, i, AllRules(e.ruleSets, names)), out.value, k)
  {
    CompileSucceedsIff(e.x, e.ruleSets);
    err := e.CompileRules();
    if err.Some? { return err, None; }
    out := e.Execute(i);
    assert e.rules == Flatten(e.x, e.ruleSets, CompileOrder(e.x, e.ruleSets).done);
    SourceRunsIff(e.x, i, e.ruleSets, names);
    if out.Some? {
      forall k ensures Decided(e.x, i, Matching(e.x, i, AllRules(e.ruleSets, names)), out.value, k) {
        SourceDecides(e.x, i, e.ruleSets, names, k);
      }
    }
  }
}
