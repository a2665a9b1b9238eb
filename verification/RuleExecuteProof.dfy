/** Execution is decided, capability by capability, by the last matching operation. */
module RuleExecuteProof {
  import opened Wrappers
  import opened RuleModel
  import opened RuleExecuteSpec

  lemma {:induction false} LastOperationConcat(x: Expr, i: Input, a: seq<CompiledRule>, b: seq<CompiledRule>, k: string)
    ensures LastOperation(x, i, a + b, k) ==
            if LastOperation(x, i, b, k).Some? then LastOperation(x, i, b, k) else LastOperation(x, i, a, k)
  {
    if a == [] {
      assert a + b == b;
    } else {
      assert (a + b)[1..] == a[1..] + b;
      LastOperationConcat(x, i, a[1..], b, k);
    }
  }

  lemma {:induction false} LastOperationDecides(x: Expr, i: Input, ms: seq<CompiledRule>, k: string)
    ensures LastOperation(x, i, ms, k) == None <==> Untouched(x, i, ms, k)
    ensures forall op :: LastOperation(x, i, ms, k) == Some(op) <==> DecidedBy(x, i, ms, k, op)
  {
    if ms != [] {
      var rest := ms[1..];
      LastOperationDecides(x, i, rest, k);
      assert ms == [ms[0]] + rest;
      forall op ensures LastOperation(x, i, ms, k) == Some(op) <==> DecidedBy(x, i, ms, k, op) {
        if LastOperation(x, i, ms, k) == Some(op) {
          if LastOperation(x, i, rest, k) == Some(op) {
            var j :| Decides(x, i, rest, j, k, op);
            assert Decides(x, i, ms, j + 1, k, op);
          } else {
            assert Untouched(x, i, rest, k);
            forall n | 0 < n < |ms| ensures OperationOn(x, i, ms[n], k) == None { assert ms[n] == rest[n - 1]; }
            assert Decides(x, i, ms, 0, k, op);
          }
        }
        if j :| Decides(x, i, ms, j, k, op) {
          if j > 0 {
            assert Decides(x, i, rest, j - 1, k, op) by {
              forall n | j - 1 < n < |rest| ensures OperationOn(x, i, rest[n], k) == None {
                assert rest[n] == ms[n + 1];
              }
            }
          } else {
            forall r <- rest ensures OperationOn(x, i, r, k) == None {
              var n :| 0 <= n < |rest| && rest[n] == r;
              assert r == ms[n + 1];
            }
          }
        }
      }
    }
  }

  lemma {:induction false} MatchedConcat(x: Expr, i: Input, a: seq<CompiledRule>, b: seq<CompiledRule>)
    ensures Matched(x, i, a + b) == Matched(x, i, a) + Matched(x, i, b)
    decreases |a|
  {
    if a == [] {
      assert a + b == b;
    } else {
      assert (a + b)[1..] == a[1..] + b && (a + b)[0] == a[0];
      MatchedConcat(x, i, a[1..], b);
    }
  }

  lemma {:induction false} RuleSettles(x: Expr, i: Input, caps: Capabilities, r: CompiledRule, k: string)
    requires ExecRule(x, i, caps, r).Some?
    ensures Settles(caps, ExecRule(x, i, caps, r).value, k, LastOperation(x, i, MatchedIn(x, i, r), k))
    decreases r
  {
    if Matches(x, i, r) {
      var mid := caps + Added(x, i, r) - r.remove.Keys;
      RulesSettle(x, i, mid, r.children, k);
      assert ([r] + Matched(x, i, r.children))[1..] == Matched(x, i, r.children);
      assert Settles(caps, mid, k, OperationOn(x, i, r, k));
    }
  }

  lemma {:induction false} RulesSettle(x: Expr, i: Input, caps: Capabilities, rs: seq<CompiledRule>, k: string)
    requires ExecRules(x, i, caps, rs).Some?
    ensures Settles(caps, ExecRules(x, i, caps, rs).value, k, LastOperation(x, i, Matched(x, i, rs), k))
    decreases rs
  {
    if rs != [] {
      RuleSettles(x, i, caps, rs[0], k);
      var mid := ExecRule(x, i, caps, rs[0]).value;
      RulesSettle(x, i, mid, rs[1..], k);
      LastOperationConcat(x, i, MatchedIn(x, i, rs[0]), Matched(x, i, rs[1..]), k);
    }
  }

  lemma {:induction false} RuleRunsIff(x: Expr, i: Input, caps: Capabilities, r: CompiledRule)
    ensures ExecRule(x, i, caps, r).Some? <==> forall q <- ReachedIn(x, i, r) :: RuleRuns(x, i, q)
    decreases r
  {
    assert r == ReachedIn(x, i, r)[0];
    if RuleRuns(x, i, r) && Matches(x, i, r) {
      RulesRunIff(x, i, caps + Added(x, i, r) - r.remove.Keys, r.children);
      assert ReachedIn(x, i, r) == [r] + Reached(x, i, r.children);
    }
  }

  /** Execution succeeds exactly when every rule it reaches runs, whatever the capabilities so far. */
  lemma {:induction false} RulesRunIff(x: Expr, i: Input, caps: Capabilities, rs: seq<CompiledRule>)
    ensures ExecRules(x, i, caps, rs).Some? <==> forall q <- Reached(x, i, rs) :: RuleRuns(x, i, q)
    decreases rs
  {
    if rs != [] {
      RuleRunsIff(x, i, caps, rs[0]);
      var head := ExecRule(x, i, caps, rs[0]);
      if head.Some? {
        RulesRunIff(x, i, head.value, rs[1..]);
      }
    }
  }

  lemma {:induction false} ExecConcat(x: Expr, i: Input, caps: Capabilities, a: seq<CompiledRule>, b: seq<CompiledRule>)
    ensures var first := ExecRules(x, i, caps, a);
            ExecRules(x, i, caps, a + b) == if first.Some? then ExecRules(x, i, first.value, b) else None
    decreases |a|
  {
    if a == [] {
      assert a + b == b;
    } else {
      assert (a + b)[1..] == a[1..] + b && (a + b)[0] == a[0];
      var head := ExecRule(x, i, caps, a[0]);
      if head.Some? {
        ExecConcat(x, i, head.value, a[1..], b);
      }
    }
  }

  lemma OutputIsDecided(x: Expr, i: Input, rs: seq<CompiledRule>, k: string)
    requires ExecRules(x, i, map[], rs).Some?
    ensures var out := ExecRules(x, i, map[], rs).value;
            var ms := Matched(x, i, rs);
            && (k in out <==> exists values :: DecidedBy(x, i, ms, k, Adds(values)))
            && forall values | DecidedBy(x, i, ms, k, Adds(values)) :: k in out && out[k] == values
  {
    RulesSettle(x, i, map[], rs, k);
    var ms := Matched(x, i, rs);
    LastOperationDecides(x, i, ms, k);
    var out := ExecRules(x, i, map[], rs).value;
    if k in out {
      assert DecidedBy(x, i, ms, k, Adds(LastOperation(x, i, ms, k).value.values));
    }
  }

  /** A matched rule is reached. */
  lemma {:induction false} MatchedReached(x: Expr, i: Input, rs: seq<CompiledRule>)
    ensures forall r <- Matched(x, i, rs) :: r in Reached(x, i, rs) && Matches(x, i, r)
    decreases rs
  {
    if rs != [] {
      MatchedReached(x, i, rs[1..]);
      if Matches(x, i, rs[0]) { MatchedReached(x, i, rs[0].children); }
    }
  }

  lemma MatchedAddsRun(x: Expr, i: Input, rs: seq<CompiledRule>)
    requires ExecRules(x, i, map[], rs).Some?
    ensures forall r <- Matched(x, i, rs) :: AddsRun(x, i, r)
  {
    MatchedReached(x, i, rs);
    RulesRunIff(x, i, map[], rs);
    forall r <- Matched(x, i, rs) ensures AddsRun(x, i, r) { assert RuleRuns(x, i, r); }
  }

  /** When execution succeeds, a rule decides by what it lists: the deciding Add is the last rule that lists `k`. */
  lemma DecidesByListing(x: Expr, i: Input, rs: seq<CompiledRule>, k: string, j: int, values: map<string, Value>)
    requires ExecRules(x, i, map[], rs).Some?
    ensures var ms := Matched(x, i, rs);
            Decides(x, i, ms, j, k, Adds(values)) <==>
            AddsLast(ms, j, k) && ValuesRun(x, i, ms[j].add[k]) && values == ValuesOf(x, i, ms[j].add[k])
  {
    var ms := Matched(x, i, rs);
    MatchedAddsRun(x, i, rs);
    forall n | 0 <= n < |ms| ensures OperationOn(x, i, ms[n], k) == None <==> k !in ms[n].add && k !in ms[n].remove {
      assert ms[n] in ms;
    }
  }

  /** The values of an addition are what its programs run to, name by name. */
  lemma ValuesAreRuns(x: Expr, i: Input, values: map<string, Program>)
    requires ValuesRun(x, i, values)
    ensures ValuesOf(x, i, values).Keys == values.Keys
    ensures forall v <- values :: x.run(values[v], i) == Some(ValuesOf(x, i, values)[v])
  {
  }

  /**
   * A capability is in the output exactly when the last matching rule that lists it adds and does not remove it, and
   * then each of its values is what that rule's program runs to.
   */
  lemma OutputIsLastOperation(x: Expr, i: Input, rs: seq<CompiledRule>, k: string)
    requires ExecRules(x, i, map[], rs).Some?
    ensures DecidedByLast(x, i, Matched(x, i, rs), ExecRules(x, i, map[], rs).value, k)
  {
    var out, ms := ExecRules(x, i, map[], rs).value, Matched(x, i, rs);
    OutputIsDecided(x, i, rs, k);
    MatchedAddsRun(x, i, rs);
    if k in out {
      var values :| DecidedBy(x, i, ms, k, Adds(values));
      var j :| Decides(x, i, ms, j, k, Adds(values));
      DecidesByListing(x, i, rs, k, j, values);
    }
    forall j | AddsLast(ms, j, k)
      ensures k in out && out[k].Keys == ms[j].add[k].Keys
      ensures forall v <- out[k] :: x.run(ms[j].add[k][v], i) == Some(out[k][v])
    {
      assert ms[j] in ms;
      ValuesAreRuns(x, i, ms[j].add[k]);
      DecidesByListing(x, i, rs, k, j, ValuesOf(x, i, ms[j].add[k]));
      assert DecidedBy(x, i, ms, k, Adds(ValuesOf(x, i, ms[j].add[k])));
    }
  }
}
