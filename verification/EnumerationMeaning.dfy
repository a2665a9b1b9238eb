/** From rules to devices: which capabilities an enumerated device holds, in terms of the rules themselves. */
module EnumerationMeaning {
  import opened Wrappers
  import opened Keys
  import opened Factory
  import opened EventLog
  import opened CapabilityPlan
  import opened GatewayState
  import opened NodeUpdate
  import opened Enumeration
  import opened RuleModel
  import opened RuleCompileSpec
  import opened RuleExecuteSpec
  import opened RuleSource
  import opened RuleSourceProof

  /** `runRulesFn` on one endpoint: the compiled rule sets with that endpoint as `Self`. */
  ghost function RulesOf(x: Expr, sets: RuleSets, node: Input): Byte -> Option<Enumeration.Capabilities>
    requires WellNamed(sets)
  {
    e => ExecRules(x, node.(self := e), map[], Flatten(x, sets, CompileOrder(x, sets).done))
  }

  /** For this endpoint, the rule sets' last word on the implementation adds it with these settings. */
  ghost predicate Asked(x: Expr, sets: RuleSets, names: seq<string>, node: Input, e: Byte, name: string,
                        settings: Settings) {
    var i := node.(self := e);
    Asks(x, i, Matching(x, i, AllRules(sets, names)), name, settings)
  }

  lemma OutputIsAsked(x: Expr, sets: RuleSets, names: seq<string>, node: Input, e: Byte, name: string,
                      settings: Settings)
    requires WellNamed(sets) && CompileOrder(x, sets).Visited? && SortedNames(sets, names)
    requires RulesOf(x, sets, node)(e).Some?
    ensures var r := RulesOf(x, sets, node)(e).value;
            Asked(x, sets, names, node, e, name, settings) <==> name in r && r[name] == settings
  {
    SourceAsks(x, node.(self := e), sets, names, name, settings);
  }

  /** Some implementation of the category is finally asked for on the endpoint, and attached with its settings. */
  ghost predicate AskedAndAttached(m: Mapping, x: Expr, sets: RuleSets, names: seq<string>, node: Input, e: Byte,
                                   outcome: (Byte, string, Settings) -> Outcome, c: Category) {
    exists name, settings ::
      && name in m && m[name] == c && Asked(x, sets, names, node, e, name, settings)
      && outcome(e, name, settings) == Attached
  }

  lemma HeldIsAsked(m: Mapping, x: Expr, sets: RuleSets, names: seq<string>, node: Input, e: Byte,
                    asked: Enumeration.Capabilities, outcome: (Byte, string, Settings) -> Outcome, held: Held,
                    c: Category)
    requires WellNamed(sets) && CompileOrder(x, sets).Visited? && SortedNames(sets, names)
    requires RulesOf(x, sets, node)(e) == Some(asked) && HoldsOutput(m, e, asked, outcome, held)
    ensures c in held <==> AskedAndAttached(m, x, sets, names, node, e, outcome, c)
  {
    if c in held {
      var name :| name in asked && name in m && m[name] == c && outcome(e, name, asked[name]) == Attached;
      OutputIsAsked(x, sets, names, node, e, name, asked[name]);
    }
    if name, settings :| && name in m && m[name] == c && Asked(x, sets, names, node, e, name, settings)
                         && outcome(e, name, settings) == Attached {
      OutputIsAsked(x, sets, names, node, e, name, settings);
    }
  }

  /**
   * After an enumeration a device holds a capability exactly when the rule sets' last word for its endpoint asks for an
   * implementation of it, and that one attached with the settings that the rule's texts evaluate to.
   */
  lemma DeviceFollowsRules(m: Mapping, n: Ieee, before: Rows, after: Rows, x: Expr, sets: RuleSets, names: seq<string>,
                           node: Input, answer: Inventory, inv: Inventory, outcome: (Byte, string, Settings) -> Outcome,
                           a: Address, c: Category)
    requires WellNamed(sets) && CompileOrder(x, sets).Visited? && SortedNames(sets, names)
    requires Interrogated(Some(answer), RulesOf(x, sets, node)) == Some(inv)
    requires Enumerated(m, n, before, after, inv, outcome) && a in after && a.ieee == n
    ensures var e := after[a].id;
            && after[a].isSet && e in answer
            && (c in after[a].held <==> AskedAndAttached(m, x, sets, names, node, e, outcome, c))
  {
    EnumeratedDevice(m, n, before, after, inv, outcome, a);
    var e := after[a].id;
    HeldIsAsked(m, x, sets, names, node, e, inv[e].rulesOutput, outcome, after[a].held, c);
  }
}
