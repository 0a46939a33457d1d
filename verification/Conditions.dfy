/**
 The condition language of a plan step, after parsing: paths rooted at
 `params` or `results`, literals, comparisons and boolean connectives.
 A failing lookup or an ill-typed comparison is an error, and a condition
 that ends in an error does not hold.
 */
module Conditions {
  import opened Wrappers
  import opened Json

  datatype Root = Params | Results

  datatype CompareOp = Eq | Ne | Lt | Le | Gt | Ge

  /** A literal keeps its source text beside its value; a path has at least one segment. */
  datatype Expr =
    | Literal(text: string, value: Value)
    | Path(root: Root, first: string, rest: seq<string>)
    | Compare(op: CompareOp, left: Expr, right: Expr)
    | And(left: Expr, right: Expr)
    | Or(left: Expr, right: Expr)
    | Not(arg: Expr)

  /** `Always` is the empty condition text. */
  datatype Condition = Always | When(expr: Expr)

  datatype EvalError = MissingKey | NotSubscriptable | IncomparableTypes

  type Env = map<string, Value>

  /** Subscripts `v` by each segment in turn; every step needs a dictionary that holds the key. */
  function Subscript(v: Value, segments: seq<string>): Result<Value, EvalError> {
    if segments == [] then Ok(v)
    else if !v.Dict? then Err(NotSubscriptable)
    else if segments[0] !in v.fields then Err(MissingKey)
    else Subscript(v.fields[segments[0]], segments[1..])
  }

  predicate StringLess(a: string, b: string) {
    b != "" && (a == "" || a[0] < b[0] || (a[0] == b[0] && StringLess(a[1..], b[1..])))
  }

  function Ordered(op: CompareOp, less: bool, equal: bool): bool
    requires !op.Eq? && !op.Ne?
  {
    match op
    case Lt => less
    case Le => less || equal
    case Gt => !less && !equal
    case Ge => !less
  }

  /** Booleans are numbers to Python. */
  function AsNumber(v: Value): Option<real> {
    match v
    case Num(n) => Some(n)
    case Bool(b) => Some(if b then 1.0 else 0.0)
    case _ => None
  }

  /** Python's `==`. */
  predicate Same(a: Value, b: Value) {
    match a
    case List(xs) => b.List? && |xs| == |b.items| && forall i :: 0 <= i < |xs| ==> Same(xs[i], b.items[i])
    case Dict(m) => b.Dict? && m.Keys == b.fields.Keys && forall k :: k in m ==> Same(m[k], b.fields[k])
    case _ => if AsNumber(a).Some? then AsNumber(a) == AsNumber(b) else a == b
  }

  /** The first place where the lists differ, or the length of the shorter one. */
  function FirstDifference(xs: seq<Value>, ys: seq<Value>): (n: nat)
    ensures n <= |xs| && n <= |ys|
    ensures forall i :: 0 <= i < n ==> Same(xs[i], ys[i])
    ensures n < |xs| && n < |ys| ==> !Same(xs[n], ys[n])
  {
    if xs == [] || ys == [] || !Same(xs[0], ys[0]) then 0 else 1 + FirstDifference(xs[1..], ys[1..])
  }

  /** Python's `<` and its kin: numbers, texts, and lists by their first difference. */
  function CompareOrder(op: CompareOp, a: Value, b: Value): Result<Value, EvalError>
    requires !op.Eq? && !op.Ne?
  {
    if AsNumber(a).Some? && AsNumber(b).Some? then
      var x, y := AsNumber(a).value, AsNumber(b).value;
      Ok(Bool(Ordered(op, x < y, x == y)))
    else if a.Str? && b.Str? then Ok(Bool(Ordered(op, StringLess(a.s, b.s), a.s == b.s)))
    else if a.List? && b.List? then
      var n := FirstDifference(a.items, b.items);
      if n < |a.items| && n < |b.items| then CompareOrder(op, a.items[n], b.items[n])
      else Ok(Bool(Ordered(op, |a.items| < |b.items|, |a.items| == |b.items|)))
    else Err(IncomparableTypes)
  }

  function CompareValues(op: CompareOp, a: Value, b: Value): Result<Value, EvalError> {
    if op.Eq? then Ok(Bool(Same(a, b)))
    else if op.Ne? then Ok(Bool(!Same(a, b)))
    else CompareOrder(op, a, b)
  }

  function Eval(e: Expr, params: Env, results: Env): Result<Value, EvalError> {
    match e
    case Literal(_, v) => Ok(v)
    case Path(root, first, rest) => Subscript(Dict(if root.Params? then params else results), [first] + rest)
    case Compare(op, l, r) =>
      var a := Eval(l, params, results);
      if a.Err? then a else
      var b := Eval(r, params, results);
      if b.Err? then b else CompareValues(op, a.value, b.value)
    case And(l, r) =>
      var a := Eval(l, params, results);
      if a.Err? || !Truthy(a.value) then a else Eval(r, params, results)
    case Or(l, r) =>
      var a := Eval(l, params, results);
      if a.Err? || Truthy(a.value) then a else Eval(r, params, results)
    case Not(x) =>
      var a := Eval(x, params, results);
      if a.Err? then a else Ok(Bool(!Truthy(a.value)))
  }

  /** `eval_condition`: no condition always holds, and an error never does. */
  predicate Holds(c: Condition, params: Env, results: Env) {
    match c
    case Always => true
    case When(e) =>
      var v := Eval(e, params, results);
      v.Ok? && Truthy(v.value)
  }

  /** The result keys an expression may look at. */
  function Reads(e: Expr): set<string> {
    match e
    case Literal(_, _) => {}
    case Path(root, first, _) => if root.Results? then {first} else {}
    case Compare(_, l, r) => Reads(l) + Reads(r)
    case And(l, r) => Reads(l) + Reads(r)
    case Or(l, r) => Reads(l) + Reads(r)
    case Not(x) => Reads(x)
  }

  function ConditionReads(c: Condition): set<string> {
    if c.Always? then {} else Reads(c.expr)
  }

  /** Two result maps that look the same on the given keys. */
  ghost predicate AgreeOn(r1: Env, r2: Env, keys: set<string>) {
    forall k :: k in keys ==> (k in r1 <==> k in r2) && (k in r1 ==> r1[k] == r2[k])
  }

  lemma {:induction false} EvalReadsOnly(e: Expr, params: Env, r1: Env, r2: Env)
    requires AgreeOn(r1, r2, Reads(e))
    ensures Eval(e, params, r1) == Eval(e, params, r2)
  {
    match e
    case Literal(_, _) =>
    case Path(root, first, rest) =>
      assert ([first] + rest)[0] == first;
    case Compare(_, l, r) =>
      EvalReadsOnly(l, params, r1, r2);
      EvalReadsOnly(r, params, r1, r2);
    case And(l, r) =>
      EvalReadsOnly(l, params, r1, r2);
      EvalReadsOnly(r, params, r1, r2);
    case Or(l, r) =>
      EvalReadsOnly(l, params, r1, r2);
      EvalReadsOnly(r, params, r1, r2);
    case Not(x) =>
      EvalReadsOnly(x, params, r1, r2);
  }

  /** A condition's value depends on nothing but the results it mentions. */
  lemma HoldsReadsOnly(c: Condition, params: Env, r1: Env, r2: Env)
    requires AgreeOn(r1, r2, ConditionReads(c))
    ensures Holds(c, params, r1) <==> Holds(c, params, r2)
  {
    if c.When? {
      EvalReadsOnly(c.expr, params, r1, r2);
    }
  }

  // ---------------------------------------------------------------- more results

  /** On the given keys `r2` has all that `r1` has. */
  ghost predicate GrowsOn(r1: Env, r2: Env, keys: set<string>) {
    forall k :: k in keys && k in r1 ==> k in r2 && r1[k] == r2[k]
  }

  lemma OrderErrs(op: CompareOp, a: Value, b: Value)
    requires !op.Eq? && !op.Ne?
    ensures CompareOrder(op, a, b).Err? ==> CompareOrder(op, a, b).error == IncomparableTypes
  {
  }

  /** What evaluates without an error evaluates to the same once more results are there. */
  lemma {:induction false} EvalGrows(e: Expr, params: Env, r1: Env, r2: Env)
    requires GrowsOn(r1, r2, Reads(e)) && Eval(e, params, r1).Ok?
    ensures Eval(e, params, r2) == Eval(e, params, r1)
  {
    match e
    case Literal(_, _) =>
    case Path(root, first, rest) =>
      assert ([first] + rest)[0] == first;
    case Compare(_, l, r) =>
      EvalGrows(l, params, r1, r2);
      EvalGrows(r, params, r1, r2);
    case And(l, r) =>
      EvalGrows(l, params, r1, r2);
      if Truthy(Eval(l, params, r1).value) {
        EvalGrows(r, params, r1, r2);
      }
    case Or(l, r) =>
      EvalGrows(l, params, r1, r2);
      if !Truthy(Eval(l, params, r1).value) {
        EvalGrows(r, params, r1, r2);
      }
    case Not(x) =>
      EvalGrows(x, params, r1, r2);
  }

  /** A condition that holds stays true as results are added: a missing result is an error, which is never true. */
  lemma HoldsGrows(c: Condition, params: Env, r1: Env, r2: Env)
    requires GrowsOn(r1, r2, ConditionReads(c)) && Holds(c, params, r1)
    ensures Holds(c, params, r2)
  {
    if c.When? {
      EvalGrows(c.expr, params, r1, r2);
    }
  }
}
