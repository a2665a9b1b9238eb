/**
 * What loaded rule sets mean, read off their source text: the rules that match and the last word on each
 * capability.
 */
module RuleSource {
  import opened Wrappers
  import opened RuleModel
  import opened Sequences
  import opened SortedStrings

  /** The value of an expression text, if it compiles and runs. */
  function Eval(x: Expr, i: Input, text: string): Option<Value> {
    if x.compile(text).Some? then x.run(x.compile(text).value, i) else None
  }

  // ---- The order of the rules ----

  /**
   * A set comes after the sets it depends on, in the order it lists them; `free` are the names not being placed
   * already.
   */
  function Placed(sets: RuleSets, done: seq<string>, name: string, free: set<string>): seq<string>
    decreases free, 0
  {
    if name in done || name !in sets || name !in free then done
    else PlacedAll(sets, done, sets[name].dependsOn, free - {name}) + [name]
  }

  function PlacedAll(sets: RuleSets, done: seq<string>, names: seq<string>, free: set<string>): seq<string>
    decreases free, |names|
  {
    if names == [] then done else PlacedAll(sets, Placed(sets, done, names[0], free), names[1..], free)
  }

  /** The loaded names in Go's string order. */
  ghost predicate SortedNames(sets: RuleSets, names: seq<string>) {
    Ascending(names) && Distinct(names) && Elements(names) == sets.Keys
  }

  /** The rules of the listed sets, one after another. */
  function RulesIn(sets: RuleSets, order: seq<string>): seq<Rule>
    decreases |order|
  {
    if order == [] then [] else
      var n := order[|order| - 1];
      RulesIn(sets, order[..|order| - 1]) + if n in sets then sets[n].rules else []
  }

  /** All loaded rules, in the order in which they are executed. */
  function AllRules(sets: RuleSets, names: seq<string>): seq<Rule> {
    RulesIn(sets, PlacedAll(sets, [], names, sets.Keys))
  }

  // ---- Matching ----

  /** The rules whose own filter text and all ancestors' filter texts evaluate to true, in preorder. */
  function Matching(x: Expr, i: Input, rs: seq<Rule>): seq<Rule>
    decreases rs
  {
    if rs == [] then [] else MatchingIn(x, i, rs[0]) + Matching(x, i, rs[1..])
  }

  function MatchingIn(x: Expr, i: Input, r: Rule): seq<Rule>
    decreases r
  {
    if Eval(x, i, r.filter) == Some(Bool(true)) then [r] + Matching(x, i, r.children) else []
  }

  /** The rules whose filter text is looked at, matching or not, in preorder. */
  function Reaching(x: Expr, i: Input, rs: seq<Rule>): seq<Rule>
    decreases rs
  {
    if rs == [] then [] else ReachingIn(x, i, rs[0]) + Reaching(x, i, rs[1..])
  }

  function ReachingIn(x: Expr, i: Input, r: Rule): seq<Rule>
    decreases r
  {
    [r] + if Eval(x, i, r.filter) == Some(Bool(true)) then Reaching(x, i, r.children) else []
  }

  // ---- The last word on a capability ----

  /** The `j`th rule adds `k`, does not remove it again, and no later rule adds or removes it. */
  ghost predicate LastAdd(ms: seq<Rule>, j: int, k: string) {
    && 0 <= j < |ms| && k in ms[j].add && k !in ms[j].remove
    && forall n | j < n < |ms| :: k !in ms[n].add && k !in ms[n].remove
  }

  /** The settings are what the rule's texts for `k` evaluate to, name by name. */
  ghost predicate Evaluated(x: Expr, i: Input, r: Rule, k: string, settings: map<string, Value>) {
    && k in r.add && settings.Keys == r.add[k].Keys
    && forall v <- settings :: Eval(x, i, r.add[k][v]) == Some(settings[v])
  }

  /** The rules' last word on `k` adds it with these settings. */
  ghost predicate Asks(x: Expr, i: Input, ms: seq<Rule>, k: string, settings: map<string, Value>) {
    exists j :: LastAdd(ms, j, k) && Evaluated(x, i, ms[j], k, settings)
  }

  /** `out` has `k` exactly when the rules' last word on it adds it, and then with that rule's settings. */
  ghost predicate Decided(x: Expr, i: Input, ms: seq<Rule>, out: Capabilities, k: string) {
    && (k in out <==> exists j :: LastAdd(ms, j, k))
    && (forall j | LastAdd(ms, j, k) :: k in out && Evaluated(x, i, ms[j], k, out[k]))
  }

  /** The filter text evaluates to a boolean and, if that is true, every added text evaluates. */
  ghost predicate Evaluates(x: Expr, i: Input, r: Rule) {
    && (Eval(x, i, r.filter) == Some(Bool(true)) || Eval(x, i, r.filter) == Some(Bool(false)))
    && (Eval(x, i, r.filter) == Some(Bool(true)) ==> forall k <- r.add, v <- r.add[k] :: Eval(x, i, r.add[k][v]).Some?)
  }
}
