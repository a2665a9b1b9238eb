/** What executing compiled rules means, and what finally decides each capability. */
module RuleExecuteSpec {
  import opened Wrappers
  import opened RuleModel

  // ---- Execution, rule by rule ----

  predicate ValuesRun(x: Expr, i: Input, values: map<string, Program>) {
    forall k <- values :: x.run(values[k], i).Some?
  }

  function ValuesOf(x: Expr, i: Input, values: map<string, Program>): map<string, Value>
    requires ValuesRun(x, i, values)
  {
    map k <- values :: x.run(values[k], i).value
  }

  predicate AddsRun(x: Expr, i: Input, r: CompiledRule) {
    forall k <- r.add :: ValuesRun(x, i, r.add[k])
  }

  function Added(x: Expr, i: Input, r: CompiledRule): Capabilities
    requires AddsRun(x, i, r)
  {
    map k <- r.add :: ValuesOf(x, i, r.add[k])
  }

  /** One rule on the capabilities so far; None is an execution error. */
  function ExecRule(x: Expr, i: Input, caps: Capabilities, r: CompiledRule): Option<Capabilities>
    decreases r
  {
    match x.run(r.filter, i)
    case Some(Bool(matched)) =>
      if !matched then Some(caps)
      else if !AddsRun(x, i, r) then None
      else ExecRules(x, i, caps + Added(x, i, r) - r.remove.Keys, r.children)
    case _ => None
  }

  function ExecRules(x: Expr, i: Input, caps: Capabilities, rs: seq<CompiledRule>): Option<Capabilities>
    decreases rs
  {
    if rs == [] then Some(caps) else
      var head := ExecRule(x, i, caps, rs[0]);
      if head.None? then None else ExecRules(x, i, head.value, rs[1..])
  }

  // ---- The reference: the last matching operation ----

  /**
   * `out` has `k` exactly when the last matched rule that lists it adds it, and then what that rule's programs
   * run to.
   */
  ghost predicate DecidedByLast(x: Expr, i: Input, ms: seq<CompiledRule>, out: Capabilities, k: string) {
    && (k in out <==> exists j :: AddsLast(ms, j, k))
    && (forall j | AddsLast(ms, j, k) ::
          && k in out && out[k].Keys == ms[j].add[k].Keys
          && forall v <- out[k] :: x.run(ms[j].add[k][v], i) == Some(out[k][v]))
  }

  predicate Matches(x: Expr, i: Input, r: CompiledRule) {
    x.run(r.filter, i) == Some(Bool(true))
  }

  /** The rules whose own filter and all ancestor filters match, in preorder. */
  function Matched(x: Expr, i: Input, rs: seq<CompiledRule>): seq<CompiledRule>
    decreases rs
  {
    if rs == [] then [] else MatchedIn(x, i, rs[0]) + Matched(x, i, rs[1..])
  }

  function MatchedIn(x: Expr, i: Input, r: CompiledRule): seq<CompiledRule>
    decreases r
  {
    if Matches(x, i, r) then [r] + Matched(x, i, r.children) else []
  }

  /** The rules whose filter is looked at, matching or not, in preorder. */
  function Reached(x: Expr, i: Input, rs: seq<CompiledRule>): seq<CompiledRule>
    decreases rs
  {
    if rs == [] then [] else ReachedIn(x, i, rs[0]) + Reached(x, i, rs[1..])
  }

  function ReachedIn(x: Expr, i: Input, r: CompiledRule): seq<CompiledRule>
    decreases r
  {
    [r] + if Matches(x, i, r) then Reached(x, i, r.children) else []
  }

  /** A rule runs when its filter yields a boolean and, if that is true, every added value evaluates. */
  predicate RuleRuns(x: Expr, i: Input, r: CompiledRule) {
    && (x.run(r.filter, i) == Some(Bool(true)) || x.run(r.filter, i) == Some(Bool(false)))
    && (x.run(r.filter, i) == Some(Bool(true)) ==> forall k <- r.add, v <- r.add[k] :: x.run(r.add[k][v], i).Some?)
  }

  /** The `j`th rule adds `k`, does not remove it again, and no later rule adds or removes it. */
  ghost predicate AddsLast(ms: seq<CompiledRule>, j: int, k: string) {
    && 0 <= j < |ms| && k in ms[j].add && k !in ms[j].remove
    && forall n | j < n < |ms| :: k !in ms[n].add && k !in ms[n].remove
  }

  datatype Operation = Adds(values: map<string, Value>) | Removes

  /** A rule's operation on one capability: removal comes after addition within the rule. */
  function OperationOn(x: Expr, i: Input, r: CompiledRule, k: string): Option<Operation> {
    if k in r.remove then Some(Removes)
    else if k in r.add && ValuesRun(x, i, r.add[k]) then Some(Adds(ValuesOf(x, i, r.add[k])))
    else None
  }

  /** Operation `op` of the `j`th rule is the last one on `k`. */
  ghost predicate Decides(x: Expr, i: Input, ms: seq<CompiledRule>, j: int, k: string, op: Operation) {
    && 0 <= j < |ms| && OperationOn(x, i, ms[j], k) == Some(op)
    && forall n | j < n < |ms| :: OperationOn(x, i, ms[n], k) == None
  }

  ghost predicate DecidedBy(x: Expr, i: Input, ms: seq<CompiledRule>, k: string, op: Operation) {
    exists j :: Decides(x, i, ms, j, k, op)
  }

  ghost predicate Untouched(x: Expr, i: Input, ms: seq<CompiledRule>, k: string) {
    forall r <- ms :: OperationOn(x, i, r, k) == None
  }

  function LastOperation(x: Expr, i: Input, ms: seq<CompiledRule>, k: string): Option<Operation> {
    if ms == [] then None else
      var later := LastOperation(x, i, ms[1..], k);
      if later.Some? then later else OperationOn(x, i, ms[0], k)
  }

  /** `out` is what `caps` becomes on `k` when `op` is the last operation on it. */
  ghost predicate Settles(caps: Capabilities, out: Capabilities, k: string, op: Option<Operation>) {
    match op
    case None => (k in out <==> k in caps) && (k in caps ==> out[k] == caps[k])
    case Some(Adds(values)) => k in out && out[k] == values
    case Some(Removes) => k !in out
  }
}
