/**
 Dotted-path lookup and `or` fallbacks over decoded JSON, with the Python
 exceptions the lookups can end in as error values.
 */
module Expression {
  import opened Wrappers
  import opened Json
  import opened Rewrite
  import opened Text
  import opened Decimals

  datatype PyError = ValueError | AttributeError | KeyError

  // ---------------------------------------------------------------- white space

  /** White space to Python's `str.strip` and `int`. */
  predicate IsSpace(c: char) {
    c == ' ' || '\t' <= c <= '\r' || '\U{001C}' <= c <= '\U{001F}' || c == '\U{0085}' || c == '\U{00A0}' ||
    c == '\U{1680}' || '\U{2000}' <= c <= '\U{200A}' || c == '\U{2028}' || c == '\U{2029}' ||
    c == '\U{202F}' || c == '\U{205F}' || c == '\U{3000}'
  }

  function StripLeft(s: string): string {
    if s == [] || !IsSpace(s[0]) then s else StripLeft(s[1..])
  }

  function StripRight(s: string): string {
    if s == [] || !IsSpace(s[|s| - 1]) then s else StripRight(s[..|s| - 1])
  }

  function Strip(s: string): string {
    StripRight(StripLeft(s))
  }

  predicate AllSpace(s: string) {
    forall i :: 0 <= i < |s| ==> IsSpace(s[i])
  }

  lemma SpaceInFront(c: char, s: string)
    requires IsSpace(c) == true && AllSpace(s)
    ensures AllSpace([c] + s)
  {
  }

  lemma SpaceBehind(s: string, c: char)
    requires IsSpace(c) == true && AllSpace(s)
    ensures AllSpace(s + [c])
  {
  }

  lemma {:induction false} StripLeftSplits(s: string) returns (lead: string)
    ensures AllSpace(lead) && s == lead + StripLeft(s)
    ensures StripLeft(s) != [] ==> !IsSpace(StripLeft(s)[0])
  {
    if s == [] || !IsSpace(s[0]) {
      lead := [];
    } else {
      var rest := StripLeftSplits(s[1..]);
      lead := [s[0]] + rest;
      SpaceInFront(s[0], rest);
      Associate([s[0]], rest, StripLeft(s[1..]));
      HeadAndTail(s);
    }
  }

  lemma {:induction false} StripRightSplits(s: string) returns (tail: string)
    ensures AllSpace(tail) && s == StripRight(s) + tail
    ensures StripRight(s) != [] ==> !IsSpace(StripRight(s)[|StripRight(s)| - 1])
  {
    if s == [] || !IsSpace(s[|s| - 1]) {
      tail := [];
    } else {
      var rest := StripRightSplits(s[..|s| - 1]);
      tail := rest + [s[|s| - 1]];
      SpaceBehind(rest, s[|s| - 1]);
      Associate(StripRight(s[..|s| - 1]), rest, [s[|s| - 1]]);
      assert s == s[..|s| - 1] + [s[|s| - 1]];
    }
  }

  /** A text is white space, its stripped form and white space; the stripped form neither starts nor ends with any. */
  lemma StripSplits(s: string) returns (lead: string, tail: string)
    ensures s == lead + Strip(s) + tail && AllSpace(lead) && AllSpace(tail)
    ensures Strip(s) != [] ==> !IsSpace(Strip(s)[0]) && !IsSpace(Strip(s)[|Strip(s)| - 1])
  {
    lead := StripLeftSplits(s);
    tail := StripRightSplits(StripLeft(s));
    assert s == lead + (Strip(s) + tail);
    assert Strip(s) != [] ==> Strip(s)[0] == StripLeft(s)[0];
  }

  // ---------------------------------------------------------------- one segment

  /** `int(text)` for an optional sign and decimal digits, with white space around them. */
  function PyInt(text: string): Option<int> {
    var t := Strip(text);
    var signed := t != [] && (t[0] == '-' || t[0] == '+');
    var digits := if signed then t[1..] else t;
    if digits == [] || !AllDigits(digits) then None
    else
      var n: int := DigitsValue(digits);
      Some(if signed && t[0] == '-' then -n else n)
  }

  function Position(s: string, c: char): (n: nat)
    ensures n <= |s|
    ensures n < |s| ==> s[n] == c
    ensures forall i :: 0 <= i < n ==> s[i] != c
  {
    if s == [] || s[0] == c then 0 else 1 + Position(s[1..], c)
  }

  predicate IsIndexed(segment: string) {
    '[' in segment && segment[|segment| - 1] == ']'
  }

  /** A Python index into `n` items, negative ones counting from the end. */
  function PySlot(n: nat, idx: int): Option<nat> {
    if 0 <= idx < n then Some(idx) else if 0 <= idx + n < n then Some(idx + n) else None
  }

  /** `v[idx]`; None when the lookup answers None because the index or the value does not fit. */
  function IndexInto(v: Value, idx: int): Result<Option<Value>, PyError> {
    match v
    case List(items) =>
      var slot := PySlot(|items|, idx);
      Ok(if slot.Some? then Some(items[slot.value]) else None)
    case Str(s) =>
      var slot := PySlot(|s|, idx);
      Ok(if slot.Some? then Some(Str([s[slot.value]])) else None)
    case Dict(_) => Err(KeyError)
    case _ => Ok(None)
  }

  /** One turn of the lookup loop: the next value, or None where the loop returns None. */
  function Lookup(cur: Value, segment: string): Result<Option<Value>, PyError> {
    if IsIndexed(segment) then
      var bracket := Position(segment, '[');
      var name, idxPart := segment[..bracket], segment[bracket + 1..];
      var idx := PyInt(idxPart[..|idxPart| - 1]);
      if idx.None? then Err(ValueError)
      else if !cur.Dict? then Err(AttributeError)
      else IndexInto(if name in cur.fields then cur.fields[name] else List([]), idx.value)
    else if !cur.Dict? then Ok(None)
    else Ok(if segment in cur.fields then Some(cur.fields[segment]) else None)
  }

  function Walk(cur: Value, segments: seq<string>): Result<Value, PyError>
    decreases |segments|
  {
    if segments == [] then Ok(cur)
    else
      match Lookup(cur, segments[0])
      case Err(e) => Err(e)
      case Ok(None) => Ok(Null)
      case Ok(Some(v)) => if v.Null? then Ok(Null) else Walk(v, segments[1..])
  }

  /** `_eval_path`. */
  method EvalPath(path: string, ctx: map<string, Value>) returns (r: Result<Value, PyError>)
    ensures r == Walk(Dict(ctx), Split(path, '.'))
  {
    var segments := Split(path, '.');
    var cur := Dict(ctx);
    var i := 0;
    while i < |segments|
      invariant 0 <= i <= |segments|
      invariant Walk(cur, segments[i..]) == Walk(Dict(ctx), segments)
    {
      assert segments[i..][0] == segments[i] && segments[i..][1..] == segments[i + 1..];
      var next := Lookup(cur, segments[i]);
      if next.Err? {
        return Err(next.error);
      }
      if next.value.None? {
        return Ok(Null);
      }
      cur := next.value.value;
      if cur.Null? {
        return Ok(Null);
      }
      i := i + 1;
    }
    return Ok(cur);
  }

  // ---------------------------------------------------------------- fallbacks

  const OR := " or "

  /** `s.split(" or ")`. */
  function SplitOr(s: string): (parts: seq<string>)
    ensures parts != []
    decreases |s|
  {
    if s == [] then [[]]
    else if HasPrefix(s, OR) then [[]] + SplitOr(s[|OR|..])
    else
      var rest := SplitOr(s[1..]);
      [[s[0]] + rest[0]] + rest[1..]
  }

  /** Not None, not "", not []. */
  predicate IsPresent(v: Value) {
    v != Null && v != Str("") && v != List([])
  }

  function PartValue(expr: string, i: nat, ctx: map<string, Value>): Result<Value, PyError>
    requires i < |SplitOr(expr)|
  {
    Walk(Dict(ctx), Split(Strip(SplitOr(expr)[i]), '.'))
  }

  /** Part `i` of the expression decides: everything before it was looked up and found absent. */
  ghost predicate DecidedBy(expr: string, ctx: map<string, Value>, i: nat) {
    && i < |SplitOr(expr)|
    && (forall j :: 0 <= j < i ==> PartValue(expr, j, ctx).Ok? && !IsPresent(PartValue(expr, j, ctx).value))
    && (PartValue(expr, i, ctx).Ok? ==> IsPresent(PartValue(expr, i, ctx).value))
  }

  /** The first alternative that decides, from the first one on. */
  function Chosen(parts: seq<string>, ctx: map<string, Value>): Result<Value, PyError> {
    if parts == [] then Ok(Null)
    else
      var v := Walk(Dict(ctx), Split(Strip(parts[0]), '.'));
      if v.Err? || IsPresent(v.value) then v else Chosen(parts[1..], ctx)
  }

  function ExprValue(expr: string, ctx: map<string, Value>): Result<Value, PyError> {
    Chosen(SplitOr(expr), ctx)
  }

  predicate AllAbsent(expr: string, ctx: map<string, Value>, n: nat)
    requires n <= |SplitOr(expr)|
  {
    forall j :: 0 <= j < n ==> PartValue(expr, j, ctx).Ok? && !IsPresent(PartValue(expr, j, ctx).value)
  }

  lemma ChosenStep(parts: seq<string>, i: nat, ctx: map<string, Value>)
    requires i < |parts|
    ensures var v := Walk(Dict(ctx), Split(Strip(parts[i]), '.'));
            Chosen(parts[i..], ctx) == if v.Err? || IsPresent(v.value) then v else Chosen(parts[i + 1..], ctx)
  {
    assert parts[i..][0] == parts[i] && parts[i..][1..] == parts[i + 1..];
  }

  /** Where the alternatives before `i` were found absent, the rest of them decides. */
  lemma {:induction false} ChosenFrom(expr: string, ctx: map<string, Value>, i: nat) returns (d: nat)
    requires i <= |SplitOr(expr)| && AllAbsent(expr, ctx, i)
    ensures d <= |SplitOr(expr)| && AllAbsent(expr, ctx, d) && (d < |SplitOr(expr)| ==> DecidedBy(expr, ctx, d))
    ensures Chosen(SplitOr(expr)[i..], ctx) == if d < |SplitOr(expr)| then PartValue(expr, d, ctx) else Ok(Null)
    decreases |SplitOr(expr)| - i
  {
    d := i;
    if i < |SplitOr(expr)| {
      ChosenStep(SplitOr(expr), i, ctx);
      if PartValue(expr, i, ctx).Ok? && !IsPresent(PartValue(expr, i, ctx).value) {
        d := ChosenFrom(expr, ctx, i + 1);
      }
    }
  }

  lemma DecidesOnce(expr: string, ctx: map<string, Value>, i: nat, j: nat)
    requires DecidedBy(expr, ctx, i) && j <= |SplitOr(expr)| && AllAbsent(expr, ctx, j)
    requires j < |SplitOr(expr)| ==> DecidedBy(expr, ctx, j)
    ensures i == j
  {
  }

  /** The value of an expression is that of the alternative that decides, or None if none does. */
  lemma ExprValueIsDecided(expr: string, ctx: map<string, Value>)
    ensures (exists i :: DecidedBy(expr, ctx, i) && ExprValue(expr, ctx) == PartValue(expr, i, ctx)) ||
            (ExprValue(expr, ctx) == Ok(Null) && AllAbsent(expr, ctx, |SplitOr(expr)|))
    ensures forall i :: DecidedBy(expr, ctx, i) ==> ExprValue(expr, ctx) == PartValue(expr, i, ctx)
  {
    var d := ChosenFrom(expr, ctx, 0);
    assert SplitOr(expr)[0..] == SplitOr(expr);
    forall i | DecidedBy(expr, ctx, i)
      ensures ExprValue(expr, ctx) == PartValue(expr, i, ctx)
    {
      DecidesOnce(expr, ctx, i, d);
    }
  }

  /**
   `eval_expr`: the first present value among the alternatives. An exception
   counts only when it comes before any present value, and absence throughout is None.
   */
  method EvalExpr(expr: string, ctx: map<string, Value>) returns (r: Result<Value, PyError>)
    ensures (exists i :: DecidedBy(expr, ctx, i) && r == PartValue(expr, i, ctx)) ||
            (r == Ok(Null) && AllAbsent(expr, ctx, |SplitOr(expr)|))
    ensures forall i :: DecidedBy(expr, ctx, i) ==> r == PartValue(expr, i, ctx)
    ensures r == ExprValue(expr, ctx)
  {
    var parts := SplitOr(expr);
    var i := 0;
    r := Ok(Null);
    assert parts[0..] == parts;
    while i < |parts| && r == Ok(Null)
      invariant 0 <= i <= |parts|
      invariant r != Ok(Null) ==> r == ExprValue(expr, ctx)
      invariant r == Ok(Null) ==> Chosen(parts[i..], ctx) == ExprValue(expr, ctx)
    {
      ChosenStep(parts, i, ctx);
      var val := EvalPath(Strip(parts[i]), ctx);
      if val.Err? || IsPresent(val.value) {
        r := val;
      }
      i := i + 1;
    }
    ExprValueIsDecided(expr, ctx);
  }

  function JoinOr(parts: seq<string>): string
    requires parts != []
  {
    if |parts| == 1 then parts[0] else parts[0] + OR + JoinOr(parts[1..])
  }

  /** Splitting loses nothing: joining the alternatives gives back the expression. */
  lemma {:induction false} SplitOrJoins(s: string)
    ensures JoinOr(SplitOr(s)) == s
    decreases |s|
  {
    if s != [] {
      if HasPrefix(s, OR) {
        SplitOrJoins(s[|OR|..]);
        JoinBehindOr(SplitOr(s[|OR|..]));
        assert s[..|OR|] == OR;
        assert s == s[..|OR|] + s[|OR|..];
      } else {
        SplitOrJoins(s[1..]);
        JoinLonger(s[0], SplitOr(s[1..]));
        assert s == [s[0]] + s[1..];
      }
    }
  }

  lemma JoinBehindOr(rest: seq<string>)
    requires rest != []
    ensures JoinOr([[]] + rest) == OR + JoinOr(rest)
  {
    assert ([[]] + rest)[1..] == rest;
    assert [] + OR + JoinOr(rest) == OR + JoinOr(rest);
  }

  lemma JoinLonger(c: char, rest: seq<string>)
    requires rest != []
    ensures JoinOr([[c] + rest[0]] + rest[1..]) == [c] + JoinOr(rest)
  {
    var all := [[c] + rest[0]] + rest[1..];
    assert all[1..] == rest[1..];
    if |rest| > 1 {
      assert [c] + (rest[0] + OR + JoinOr(rest[1..])) == ([c] + rest[0]) + OR + JoinOr(rest[1..]);
    }
  }

  /** `s` holds " or " nowhere. */
  predicate FreeOfOr(s: string) {
    forall i :: 0 <= i <= |s| ==> !HasPrefix(s[i..], OR)
  }

  lemma FreeInFront(x: string, c: char)
    requires FreeOfOr(x) && !HasPrefix([c] + x, OR)
    ensures FreeOfOr([c] + x)
  {
    forall i | 0 <= i <= |[c] + x|
      ensures !HasPrefix(([c] + x)[i..], OR)
    {
      assert i == 0 ==> ([c] + x)[i..] == [c] + x;
      assert i > 0 ==> ([c] + x)[i..] == x[i - 1..];
    }
  }

  /** The first part is a prefix of the text, up to the end or to a separator. */
  lemma {:induction false} FirstPart(s: string)
    ensures HasPrefix(s, SplitOr(s)[0])
    decreases |s|
  {
    if s != [] && !HasPrefix(s, OR) {
      FirstPart(s[1..]);
      var first := SplitOr(s[1..])[0];
      forall i | 0 <= i < |first|
        ensures s[i + 1] == first[i]
      {
        assert s[1..][i] == first[i];
      }
    }
  }

  /** No alternative contains the separator. */
  lemma {:induction false} PartsAreFreeOfOr(s: string)
    ensures forall i :: 0 <= i < |SplitOr(s)| ==> FreeOfOr(SplitOr(s)[i])
    decreases |s|
  {
    if s != [] {
      if HasPrefix(s, OR) {
        PartsAreFreeOfOr(s[|OR|..]);
      } else {
        PartsAreFreeOfOr(s[1..]);
        FirstPart(s[1..]);
        var first := SplitOr(s[1..])[0];
        assert HasPrefix([s[0]] + first, OR) ==> HasPrefix(s, OR) by {
          assert forall i :: 0 <= i < |first| ==> s[i + 1] == s[1..][i] == first[i];
        }
        FreeInFront(first, s[0]);
      }
    }
  }

  /** No alternative decides: each was looked up and found absent. */
  ghost predicate Undecided(expr: string, ctx: map<string, Value>) {
    forall i :: !DecidedBy(expr, ctx, i)
  }

  lemma BindingsAreDecided(bindings: map<string, string>, ctx: map<string, Value>, out: map<string, Value>)
    requires out.Keys == bindings.Keys && forall k :: k in bindings ==> ExprValue(bindings[k], ctx) == Ok(out[k])
    ensures forall k, i :: k in bindings && DecidedBy(bindings[k], ctx, i) ==>
                             PartValue(bindings[k], i, ctx) == Ok(out[k])
    ensures forall k :: k in bindings && Undecided(bindings[k], ctx) ==> out[k] == Null
  {
    forall k | k in bindings
      ensures forall i :: DecidedBy(bindings[k], ctx, i) ==> PartValue(bindings[k], i, ctx) == Ok(out[k])
      ensures Undecided(bindings[k], ctx) ==> out[k] == Null
    {
      ExprValueIsDecided(bindings[k], ctx);
    }
  }

  /** `eval_bindings`: every binding looked up on its own; the first exception, if any, ends the whole. */
  method EvalBindings(bindings: map<string, string>, ctx: map<string, Value>)
      returns (r: Result<map<string, Value>, PyError>)
    ensures r.Ok? ==> r.value.Keys == bindings.Keys &&
                      forall k, i :: k in bindings && DecidedBy(bindings[k], ctx, i) ==>
                                       PartValue(bindings[k], i, ctx) == Ok(r.value[k])
    ensures r.Ok? ==> forall k :: k in bindings && Undecided(bindings[k], ctx) ==> r.value[k] == Null
    ensures r.Err? ==> exists k, i :: k in bindings && DecidedBy(bindings[k], ctx, i) &&
                                      PartValue(bindings[k], i, ctx) == Err(r.error)
    ensures r.Ok? ==> forall k :: k in bindings ==> ExprValue(bindings[k], ctx) == Ok(r.value[k])
    ensures r.Err? ==> exists k :: k in bindings && ExprValue(bindings[k], ctx) == Err(r.error)
  {
    var out: map<string, Value> := map[];
    var todo := bindings.Keys;
    while todo != {}
      invariant todo <= bindings.Keys && out.Keys == bindings.Keys - todo
      invariant forall k :: k in out ==> ExprValue(bindings[k], ctx) == Ok(out[k])
    {
      var k :| k in todo;
      var v := EvalExpr(bindings[k], ctx);
      ExprValueIsDecided(bindings[k], ctx);
      if v.Err? {
        return Err(v.error);
      }
      out := out[k := v.value];
      todo := todo - {k};
    }
    BindingsAreDecided(bindings, ctx, out);
    return Ok(out);
  }
}
