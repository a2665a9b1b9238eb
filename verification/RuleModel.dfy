/** The data of rules/engine.go: rules before and after compilation, and what running them yields. */
module RuleModel {
  import opened Wrappers

  /** What `expr.Compile` returns for an expression text. */
  datatype Program = Program(code: string)

  /** What `expr.Run` returns: a filter must yield `Bool`, a capability value may be anything. */
  datatype Value = Bool(b: bool) | Other(text: string)

  datatype Product = Product(name: string, manufacturer: string, version: string, serial: string)
  datatype Endpoint = Endpoint(id: int, profileId: int, deviceId: int, inClusters: seq<int>, outClusters: seq<int>)
  datatype Input = Input(manufacturerCode: int, nodeType: string, self: int,
                         product: map<int, Product>, endpoint: map<int, Endpoint>)

  /** The expression library: both operations are deterministic and may fail. */
  datatype Expr = Expr(compile: string -> Option<Program>, run: (Program, Input) -> Option<Value>)

  type Params = map<string, map<string, string>>
  type CompiledParams = map<string, map<string, Program>>

  datatype Rule = Rule(description: string, filter: string, add: Params, remove: Params, children: seq<Rule>)

  datatype CompiledRule = CompiledRule(description: string, filter: Program,
                                       add: CompiledParams, remove: CompiledParams,
                                       children: seq<CompiledRule>)

  datatype RuleSet = RuleSet(name: string, dependsOn: seq<string>, rules: seq<Rule>)
  type RuleSets = map<string, RuleSet>

  /** The capabilities collected by one execution, each with its evaluated settings. */
  type Capabilities = map<string, map<string, Value>>

  datatype CompileError =
    | MissingDependency(trail: seq<string>, name: string)
    | CircularDependency(trail: seq<string>, name: string)
    | BadExpression(trail: seq<string>)

  /** Every key names its own rule set; `Engine.Load` keeps this. */
  ghost predicate WellNamed(sets: RuleSets) {
    forall k <- sets :: sets[k].name == k
  }
}
