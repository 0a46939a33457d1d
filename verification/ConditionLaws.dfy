/**
 What the operators of a condition mean: which values are equal, how numbers, texts
 and lists are ordered, what is true, and when the connectives hold.
 */
module ConditionLaws {
  import opened Wrappers
  import opened Json
  import opened Conditions

  // ---------------------------------------------------------------- equality

  /** The value with every boolean in it written as the number Python takes it for. */
  function Normal(v: Value): Value {
    match v
    case Bool(b) => Num(if b then 1.0 else 0.0)
    case List(items) => List(seq(|items|, i requires 0 <= i < |items| => Normal(items[i])))
    case Dict(fields) => Dict(map k | k in fields :: Normal(fields[k]))
    case _ => v
  }

  lemma {:induction false} SameIffNormal(a: Value, b: Value)
    ensures Same(a, b) <==> Normal(a) == Normal(b)
    decreases a, 1
  {
    if a.List? && b.List? {
      SameItems(a, b);
    } else if a.Dict? && b.Dict? {
      SameFields(a, b);
    }
  }

  lemma {:induction false} SameItems(a: Value, b: Value)
    requires a.List? && b.List?
    ensures Same(a, b) <==> Normal(a) == Normal(b)
    decreases a, 0
  {
    var m, n := Normal(a).items, Normal(b).items;
    if |a.items| == |b.items| {
      forall i | 0 <= i < |a.items|
        ensures Same(a.items[i], b.items[i]) <==> m[i] == n[i]
      {
        SameIffNormal(a.items[i], b.items[i]);
      }
      assert m == n <==> forall i :: 0 <= i < |m| ==> m[i] == n[i];
    } else {
      assert |m| != |n|;
    }
  }

  lemma {:induction false} SameFields(a: Value, b: Value)
    requires a.Dict? && b.Dict?
    ensures Same(a, b) <==> Normal(a) == Normal(b)
    decreases a, 0
  {
    var m, n := Normal(a).fields, Normal(b).fields;
    assert m.Keys == a.fields.Keys && n.Keys == b.fields.Keys;
    if a.fields.Keys == b.fields.Keys {
      forall k | k in a.fields
        ensures Same(a.fields[k], b.fields[k]) <==> m[k] == n[k]
      {
        SameIffNormal(a.fields[k], b.fields[k]);
      }
      assert m == n <==> forall k :: k in m ==> m[k] == n[k];
    }
  }

  /** `==` and `!=` never fail: they ask whether the two values are one, with booleans taken for numbers. */
  lemma EqualityIsSameness(l: Expr, r: Expr, params: Env, results: Env, a: Value, b: Value)
    requires Eval(l, params, results) == Ok(a) && Eval(r, params, results) == Ok(b)
    ensures Eval(Compare(Eq, l, r), params, results) == Ok(Bool(Normal(a) == Normal(b)))
    ensures Eval(Compare(Ne, l, r), params, results) == Ok(Bool(Normal(a) != Normal(b)))
  {
    SameIffNormal(a, b);
  }

  // ---------------------------------------------------------------- order

  /** Numbers, booleans among them, are ordered as numbers. */
  lemma NumbersCompare(l: Expr, r: Expr, params: Env, results: Env, a: Value, b: Value, x: real, y: real)
    requires Eval(l, params, results) == Ok(a) && Eval(r, params, results) == Ok(b)
    requires Normal(a) == Num(x) && Normal(b) == Num(y)
    ensures Eval(Compare(Eq, l, r), params, results) == Ok(Bool(x == y))
    ensures Eval(Compare(Ne, l, r), params, results) == Ok(Bool(x != y))
    ensures Eval(Compare(Lt, l, r), params, results) == Ok(Bool(x < y))
    ensures Eval(Compare(Le, l, r), params, results) == Ok(Bool(x <= y))
    ensures Eval(Compare(Gt, l, r), params, results) == Ok(Bool(x > y))
    ensures Eval(Compare(Ge, l, r), params, results) == Ok(Bool(x >= y))
  {
  }

  /** `x` ends, or has the smaller character, where it first parts from `y`. */
  ghost predicate Before(x: string, y: string) {
    exists n :: PartsAt(x, y, n)
  }

  predicate PartsAt(x: string, y: string, n: nat) {
    n <= |x| && n < |y| && x[..n] == y[..n] && (n == |x| || x[n] < y[n])
  }

  lemma PartsBehindHead(x: string, y: string, n: nat)
    requires PartsAt(x, y, n) && n > 0
    ensures x != "" && y != "" && x[0] == y[0]
  {
    assert x[..n][0] == y[..n][0];
  }

  lemma {:induction false} StringLessIffBefore(x: string, y: string)
    ensures StringLess(x, y) <==> Before(x, y)
    decreases |y|
  {
    if x != "" && y != "" && x[0] == y[0] {
      StringLessIffBefore(x[1..], y[1..]);
      if n: nat :| PartsAt(x, y, n) {
        assert n > 0;
        assert x[1..][..n - 1] == x[..n][1..] == y[1..][..n - 1];
        assert PartsAt(x[1..], y[1..], n - 1);
      }
      if n: nat :| PartsAt(x[1..], y[1..], n) {
        assert x[..n + 1] == [x[0]] + x[1..][..n] && y[..n + 1] == [y[0]] + y[1..][..n];
        assert PartsAt(x, y, n + 1);
      }
    } else {
      assert StringLess(x, y) ==> PartsAt(x, y, 0);
      if n: nat :| PartsAt(x, y, n) && n > 0 {
        PartsBehindHead(x, y, n);
      }
    }
  }

  lemma BeforeIsTotal(x: string, y: string)
    ensures Before(y, x) <==> !Before(x, y) && x != y
    decreases |x|
  {
    StringLessIffBefore(x, y);
    StringLessIffBefore(y, x);
    StringLessIsTotal(x, y);
  }

  lemma {:induction false} StringLessIsTotal(x: string, y: string)
    ensures StringLess(y, x) <==> !StringLess(x, y) && x != y
    decreases |x|
  {
    if x != "" && y != "" && x[0] == y[0] {
      StringLessIsTotal(x[1..], y[1..]);
      assert x == [x[0]] + x[1..] && y == [y[0]] + y[1..];
    }
  }

  /** Texts are ordered like words in a dictionary, by the code of the character. */
  lemma TextsCompare(l: Expr, r: Expr, params: Env, results: Env, x: string, y: string)
    requires Eval(l, params, results) == Ok(Str(x)) && Eval(r, params, results) == Ok(Str(y))
    ensures Eval(Compare(Eq, l, r), params, results) == Ok(Bool(x == y))
    ensures Eval(Compare(Ne, l, r), params, results) == Ok(Bool(x != y))
    ensures Eval(Compare(Lt, l, r), params, results) == Ok(Bool(Before(x, y)))
    ensures Eval(Compare(Le, l, r), params, results) == Ok(Bool(Before(x, y) || x == y))
    ensures Eval(Compare(Gt, l, r), params, results) == Ok(Bool(Before(y, x)))
    ensures Eval(Compare(Ge, l, r), params, results) == Ok(Bool(Before(y, x) || x == y))
  {
    StringLessIffBefore(x, y);
    BeforeIsTotal(x, y);
  }

  /** `n` is the first place where the lists differ, or the end of the shorter one. */
  predicate FirstApart(xs: seq<Value>, ys: seq<Value>, n: nat) {
    && n <= |xs| && n <= |ys|
    && (forall i :: 0 <= i < n ==> Normal(xs[i]) == Normal(ys[i]))
    && (n < |xs| && n < |ys| ==> Normal(xs[n]) != Normal(ys[n]))
  }

  lemma FirstApartIsFound(xs: seq<Value>, ys: seq<Value>, n: nat)
    requires FirstApart(xs, ys, n)
    ensures FirstDifference(xs, ys) == n
  {
    var d := FirstDifference(xs, ys);
    if d < n {
      SameIffNormal(xs[d], ys[d]);
    } else if n < d {
      SameIffNormal(xs[n], ys[n]);
    }
  }

  function LengthsCompare(op: CompareOp, m: nat, n: nat): bool
    requires !op.Eq? && !op.Ne?
  {
    match op
    case Lt => m < n
    case Le => m <= n
    case Gt => m > n
    case Ge => m >= n
  }

  /** Lists are ordered by the first items that differ, and by their lengths if there are none. */
  lemma ListsCompare(
      op: CompareOp, l: Expr, r: Expr, params: Env, results: Env, xs: seq<Value>, ys: seq<Value>, n: nat)
    requires !op.Eq? && !op.Ne? && FirstApart(xs, ys, n)
    requires Eval(l, params, results) == Ok(List(xs)) && Eval(r, params, results) == Ok(List(ys))
    ensures Eval(Compare(op, l, r), params, results) ==
            if n < |xs| && n < |ys| then Eval(Compare(op, Literal("", xs[n]), Literal("", ys[n])), params, results)
            else Ok(Bool(LengthsCompare(op, |xs|, |ys|)))
  {
    FirstApartIsFound(xs, ys, n);
  }

  predicate IsNumber(v: Value) {
    v.Num? || v.Bool?
  }

  /** The order asks for two numbers, two texts or two lists; anything else is an error. */
  lemma NothingElseIsOrdered(op: CompareOp, l: Expr, r: Expr, params: Env, results: Env, a: Value, b: Value)
    requires !op.Eq? && !op.Ne?
    requires Eval(l, params, results) == Ok(a) && Eval(r, params, results) == Ok(b)
    requires !(IsNumber(a) && IsNumber(b)) && !(a.Str? && b.Str?) && !(a.List? && b.List?)
    ensures Eval(Compare(op, l, r), params, results) == Err(IncomparableTypes)
  {
  }

  // ---------------------------------------------------------------- lookups

  /** A path of one segment is that parameter or that step's result. */
  lemma FirstSegment(root: Root, first: string, params: Env, results: Env)
    ensures var env := if root == Params then params else results;
            Eval(Path(root, first, []), params, results) ==
            if first in env then Ok(env[first]) else Err(MissingKey)
  {
    var env := if root == Params then params else results;
    assert [first] + [] == [first] && [first][1..] == [];
    if first in env {
      assert Subscript(env[first], []) == Ok(env[first]);
    }
  }

  lemma {:induction false} SubscriptSnoc(v: Value, segments: seq<string>, last: string)
    ensures Subscript(v, segments + [last]) ==
            if Subscript(v, segments).Err? then Subscript(v, segments)
            else if !Subscript(v, segments).value.Dict? then Err(NotSubscriptable)
            else if last !in Subscript(v, segments).value.fields then Err(MissingKey)
            else Ok(Subscript(v, segments).value.fields[last])
    decreases |segments|
  {
    var all := segments + [last];
    if segments == [] {
      assert all == [last] && all[1..] == [];
      if v.Dict? && last in v.fields {
        assert Subscript(v.fields[last], []) == Ok(v.fields[last]);
      }
    } else {
      assert all[0] == segments[0] && all[1..] == segments[1..] + [last];
      if v.Dict? && segments[0] in v.fields {
        SubscriptSnoc(v.fields[segments[0]], segments[1..], last);
      }
    }
  }

  /** One segment more is one field deeper, and an error if there is no such field. */
  lemma OneSegmentMore(root: Root, first: string, rest: seq<string>, last: string, params: Env, results: Env)
    ensures var before := Eval(Path(root, first, rest), params, results);
            Eval(Path(root, first, rest + [last]), params, results) ==
            if before.Err? then before
            else if !before.value.Dict? then Err(NotSubscriptable)
            else if last !in before.value.fields then Err(MissingKey)
            else Ok(before.value.fields[last])
  {
    var env := if root.Params? then params else results;
    SubscriptSnoc(Dict(env), [first] + rest, last);
    assert [first] + (rest + [last]) == ([first] + rest) + [last];
  }

  // ---------------------------------------------------------------- truth

  /** What Python takes for false: None, false, zero, and everything empty. */
  lemma FalseValues(text: string, v: Value, params: Env, results: Env)
    ensures Holds(When(Literal(text, v)), params, results) <==>
            v != Null && v != Bool(false) && v != Num(0.0) && v != Str("") && v != List([]) && v != Dict(map[])
  {
  }

  /** A condition holds exactly when it evaluates, to a value that is not one of those. */
  lemma HoldsIff(e: Expr, params: Env, results: Env)
    ensures Holds(Always, params, results)
    ensures Holds(When(e), params, results) <==>
            Eval(e, params, results).Ok? &&
            Holds(When(Literal("", Eval(e, params, results).value)), params, results)
  {
  }

  /** Both parts of an `and`; a part of an `or`, unless the first one fails; a part that evaluates, of a `not`. */
  lemma ConnectivesHold(l: Expr, r: Expr, params: Env, results: Env)
    ensures Holds(When(And(l, r)), params, results) <==>
            Holds(When(l), params, results) && Holds(When(r), params, results)
    ensures Holds(When(Or(l, r)), params, results) <==>
            || Holds(When(l), params, results)
            || (Eval(l, params, results).Ok? && Holds(When(r), params, results))
    ensures Holds(When(Not(l)), params, results) <==>
            Eval(l, params, results).Ok? && !Holds(When(l), params, results)
  {
  }

  /** A connective's value is a part's: the first one if that decides, else the second; a `not` gives a boolean. */
  lemma ConnectivesGive(l: Expr, r: Expr, params: Env, results: Env)
    requires Eval(l, params, results).Ok?
    ensures Eval(And(l, r), params, results) ==
            Eval(if Holds(When(l), params, results) then r else l, params, results)
    ensures Eval(Or(l, r), params, results) ==
            Eval(if Holds(When(l), params, results) then l else r, params, results)
    ensures Eval(Not(l), params, results) == Ok(Bool(!Holds(When(l), params, results)))
  {
  }

  /** The common condition, a comparison with a text: it holds if and only if the other side is that text. */
  lemma EqualsTextIff(l: Expr, r: Expr, params: Env, results: Env, t: string)
    requires Eval(r, params, results) == Ok(Str(t))
    ensures Holds(When(Compare(Eq, l, r)), params, results) <==> Eval(l, params, results) == Ok(Str(t))
    ensures Holds(When(Compare(Ne, l, r)), params, results) <==>
            Eval(l, params, results).Ok? && Eval(l, params, results).value != Str(t)
  {
    var a := Eval(l, params, results);
    if a.Ok? {
      EqualityIsSameness(l, r, params, results, a.value, Str(t));
    }
  }
}
